/** Numbers shared by every script: pi, the floating-point library seen as
    real functions, and the two Python exceptions the arithmetic can raise. */
module Numerics {

  /** Python's `math.pi`, written as the shortest decimal that rounds to
      that double. */
  const PI: real := 3.141592653589793

  /** The exceptions a Python expression of the scripts can raise:
      `ZeroDivisionError` and the `ValueError` "math domain error". */
  datatype MathError = ZeroDivision | MathDomain

  /** A value, or the exception that aborted its computation. */
  datatype Result<T> = Success(value: T) | Failure(error: MathError) {
    predicate IsFailure() { Failure? }
    function PropagateFailure<U>(): Result<U> requires Failure? { Failure(error) }
    function Extract(): T requires Success? { value }
  }

  datatype Option<T> = None | Some(value: T)

  /** The functions of Python's `math` module that the scripts call, as
      mathematical functions on the reals: `sqrt`, `acos`, `exp`, and
      `x ** 1.5` (written `pow15`). They are parameters of the model, and
      `Lawful` states the few laws that the proofs rely on. */
  datatype Libm = Libm(sqrt: real -> real, acos: real -> real, exp: real -> real, pow15: real -> real)

  /** On [0, inf) the square root starts at 0, passes through 1 and is
      strictly increasing. */
  ghost predicate SqrtLaws(sqrt: real -> real) {
    && sqrt(0.0) == 0.0 && sqrt(1.0) == 1.0
    && forall x, y :: 0.0 <= x < y ==> sqrt(x) < sqrt(y)
  }

  /** The defining law of the square root: its square gives back its argument.
      Kept apart from `Lawful` and required only by the proofs that need it. */
  ghost predicate SqrtSquares(sqrt: real -> real) {
    forall x {:trigger Squared(sqrt(x))} :: 0.0 <= x ==> Squared(sqrt(x)) == x
  }

  /** The square of a number; naming it lets a proof say when a square
      root's square is wanted. */
  function Squared(y: real): real { y * y }

  /** `acos` maps [-1, 1] onto [0, PI], strictly decreasing, through its
      three landmarks. */
  ghost predicate AcosLaws(acos: real -> real) {
    && acos(-1.0) == PI && acos(0.0) == PI / 2.0 && acos(1.0) == 0.0
    && forall x, y :: -1.0 <= x < y <= 1.0 ==> acos(y) < acos(x)
  }

  /** `exp` is positive, strictly increasing and takes the value 1 at 0. */
  ghost predicate ExpLaws(exp: real -> real) {
    && exp(0.0) == 1.0
    && (forall x :: 0.0 < exp(x))
    && forall x, y :: x < y ==> exp(x) < exp(y)
  }

  /** On [0, inf) `x ** 1.5` starts at 0, passes through 1 and is strictly
      increasing. */
  ghost predicate Pow15Laws(pow15: real -> real) {
    && pow15(0.0) == 0.0 && pow15(1.0) == 1.0
    && forall x, y :: 0.0 <= x < y ==> pow15(x) < pow15(y)
  }

  ghost predicate Lawful(m: Libm) {
    SqrtLaws(m.sqrt) && AcosLaws(m.acos) && ExpLaws(m.exp) && Pow15Laws(m.pow15)
  }

  /** Python's float division: `ZeroDivisionError` on a zero divisor. */
  function Div(x: real, y: real): Result<real> {
    if y == 0.0 then Failure(ZeroDivision) else Success(x / y)
  }

  /** `math.sqrt`: a "math domain error" below zero. */
  function Sqrt(m: Libm, x: real): Result<real> {
    if x < 0.0 then Failure(MathDomain) else Success(m.sqrt(x))
  }

  /** `math.acos`: a "math domain error" outside [-1, 1]. */
  function Acos(m: Libm, x: real): Result<real> {
    if x < -1.0 || 1.0 < x then Failure(MathDomain) else Success(m.acos(x))
  }

  /** `x ** n` for a whole exponent `n`. */
  function Power(x: real, n: nat): real {
    if n == 0 then 1.0 else x * Power(x, n - 1)
  }

  /** `math.degrees` */
  function Degrees(x: real): real { x * 180.0 / PI }

  /** `math.radians` */
  function Radians(x: real): real { x * PI / 180.0 }

  /** Python's `abs` on floats. */
  function Abs(x: real): (r: real)
    ensures 0.0 <= r && (r == x || r == -x)
  {
    if x < 0.0 then -x else x
  }

  function Min(a: int, b: int): int { if a <= b then a else b }

  /** An angle in [0, PI] is at most 180 degrees. */
  lemma DegreesRange(x: real)
    requires 0.0 <= x <= PI
    ensures 0.0 <= Degrees(x) <= 180.0
  {
  }

  lemma PiBounds()
    ensures 3.14 < PI < 3.15
  {
  }

  // ---------------------------------------------------------------------
  // Facts of ordered-field arithmetic, each proved on its own so that no
  // larger proof has to reason about products

  lemma PosMul(x: real, y: real)
    requires 0.0 < x && 0.0 < y
    ensures 0.0 < x * y
  {
  }

  lemma MulStrict(a: real, b: real, c: real)
    requires a < b && 0.0 < c
    ensures a * c < b * c
  {
  }

  lemma MulLe(a: real, b: real, c: real)
    requires a <= b && 0.0 < c
    ensures a * c <= b * c
  {
    if a < b { MulStrict(a, b, c); }
  }

  lemma DivIdentity(x: real, y: real)
    requires y != 0.0
    ensures (x / y) * y == x
  {
  }

  lemma DivPos(x: real, y: real)
    requires 0.0 < x && 0.0 < y
    ensures 0.0 < x / y
  {
  }

  lemma DivSelf(x: real)
    requires 0.0 < x
    ensures x / x == 1.0 && (-x) / x == -1.0
  {
  }

  lemma DivByItself(x: real)
    requires x != 0.0
    ensures x / x == 1.0
  {
    DivIdentity(x, x);
    MulCancel(x / x, 1.0, x);
  }

  lemma DivAboveOne(x: real, y: real)
    requires 0.0 < y < x
    ensures 1.0 < x / y
  {
    DivLess(y, x, y);
    assert y / y == 1.0;
  }

  lemma DivBelowOne(x: real, y: real)
    requires 0.0 < x < y
    ensures x / y < 1.0
  {
    DivLess(x, y, y);
    assert y / y == 1.0;
  }

  /** Dividing by a positive number keeps a strict order. */
  lemma DivLess(x: real, y: real, d: real)
    requires x < y && 0.0 < d
    ensures x / d < y / d
  {
    DivPos(y - x, d);
    assert (y - x) / d == y / d - x / d;
  }

  /** A product of a number with itself (written as two terms known to be
      equal) is never negative, and is positive unless the number is zero. */
  lemma SelfProduct(p: real, q: real)
    requires p == q
    ensures !(p * q < 0.0)
    ensures p < 0.0 || 0.0 < p ==> 0.0 < p * q
  {
    if p < 0.0 { assert (-p) * (-q) == p * q; assert 0.0 < (-p) * (-q); }
  }

  /** A sum of three non-negative terms is positive exactly when one of
      them is. */
  lemma SumOfNonNegatives(s: real, p: real, q: real, r: real)
    requires s == p + q + r && !(p < 0.0) && !(q < 0.0) && !(r < 0.0)
    ensures !(s < 0.0)
    ensures 0.0 < s <==> 0.0 < p || 0.0 < q || 0.0 < r
  {
  }

  lemma NegProducts(p: real, q: real)
    ensures (-p) * (-q) == p * q && p * (-q) == -(p * q)
  { }

  lemma QuotientCongruence(p: real, q: real, r: real, s: real)
    requires p == r && q == s && q != 0.0
    ensures p / q == r / s
  {
  }

  lemma MulCommutes(p: real, q: real)
    ensures p * q == q * p
  {
  }

  /** A product of two non-negative numbers is non-negative, and positive
      exactly when both are. */
  lemma NonNegativeProduct(p: real, q: real)
    requires !(p < 0.0) && !(q < 0.0)
    ensures !(p * q < 0.0)
    ensures 0.0 < p * q <==> 0.0 < p && 0.0 < q
  {
    if 0.0 < p && 0.0 < q { PosMul(p, q); }
  }

  /** A positive number times a negative one is negative. */
  lemma MixedProduct(p: real, q: real)
    requires 0.0 < p && q < 0.0
    ensures p * q < 0.0
  {
    PosMul(p, -q);
    NegProducts(p, q);
  }

  /** A positive factor leaves the sign of the other unchanged. */
  lemma ProductSign(p: real, q: real)
    requires 0.0 < p
    ensures 0.0 < q ==> 0.0 < p * q
    ensures q == 0.0 ==> p * q == 0.0
    ensures q < 0.0 ==> p * q < 0.0
  {
    if 0.0 < q { PosMul(p, q); } else if q < 0.0 { MixedProduct(p, q); }
  }

  lemma ZeroProduct(p: real, q: real)
    requires q == 0.0
    ensures p * q == 0.0
  {
  }

  /** Taking reciprocals reverses the order of positive numbers. */
  lemma ReciprocalOrder(x: real, y: real)
    requires 0.0 < x <= y
    ensures 0.0 < 1.0 / y <= 1.0 / x
  {
    DivPos(1.0, y);
    if 1.0 / x < 1.0 / y {
      DivIdentity(1.0, x);
      DivIdentity(1.0, y);
      MulStrict(x, y, 1.0 / y);
      MulStrict(1.0 / x, 1.0 / y, x);
    }
  }

  /** Equal products with a common non-zero factor have equal cofactors. */
  lemma MulCancel(a: real, b: real, c: real)
    requires a * c == b * c && c != 0.0
    ensures a == b
  {
    if a < b {
      if 0.0 < c { MulStrict(a, b, c); } else { MulStrict(a, b, -c); NegProducts(a, c); NegProducts(b, c); }
    } else if b < a {
      if 0.0 < c { MulStrict(b, a, c); } else { MulStrict(b, a, -c); NegProducts(a, c); NegProducts(b, c); }
    }
  }

  /** Twice the reciprocal of `2 a` is the reciprocal of `a`. */
  lemma TwiceReciprocal(a: real)
    requires 0.0 < a
    ensures 2.0 * (1.0 / (2.0 * a)) == 1.0 / a
  {
    DivIdentity(1.0, 2.0 * a);
    DivIdentity(1.0, a);
    MulCancel(2.0 * (1.0 / (2.0 * a)), 1.0 / a, a);
  }

  /** Dividing is multiplying by the reciprocal. */
  lemma DivAsProduct(x: real, y: real)
    requires y != 0.0
    ensures x / y == (1.0 / y) * x
  {
    DivIdentity(x, y);
    DivIdentity(1.0, y);
    MulCancel(x / y, (1.0 / y) * x, y);
  }

  /** Dividing by a number above one shrinks a positive number. */
  lemma DivByAboveOne(x: real, y: real)
    requires 0.0 < x && 1.0 < y
    ensures 0.0 < x / y < x
  {
    DivPos(x, y);
    DivLess(x, x * y, y);
    MulStrict(1.0, y, x);
    DivIdentity(x, y);
    assert (x * y) / y == x;
  }

  /** A positive number has positive powers. */
  lemma {:induction false} PowerPositive(x: real, n: nat)
    requires 0.0 < x
    ensures 0.0 < Power(x, n)
  {
    if n > 0 {
      PowerPositive(x, n - 1);
      PosMul(x, Power(x, n - 1));
    }
  }

  /** A square is never negative, and is zero only at zero. */
  lemma SquareSign(x: real)
    ensures 0.0 <= Power(x, 2)
    ensures x != 0.0 ==> 0.0 < Power(x, 2)
  {
    assert Power(x, 1) == x;
    if x < 0.0 {
      PosMul(-x, -Power(x, 1));
    } else if 0.0 < x {
      PosMul(x, Power(x, 1));
    }
  }

  /** Only zero has a zero cube, and a positive number a positive one. */
  lemma CubeSign(x: real)
    ensures 0.0 < x ==> 0.0 < Power(x, 3)
    ensures x != 0.0 ==> Power(x, 3) != 0.0
  {
    if 0.0 < x {
      PowerPositive(x, 3);
    } else if x < 0.0 {
      SquareSign(x);
      MixedProduct(Power(x, 2), x);
      MulCommutes(Power(x, 2), x);
    }
  }

  lemma MulCongruence(p: real, q: real, r: real, s: real)
    requires p == r && q == s
    ensures p * q == r * s
  {
  }

  /** Among non-negative numbers, squares are ordered as the numbers are. */
  lemma SquareOrder(a: real, b: real)
    requires !(a < 0.0) && !(b < 0.0)
    ensures a < b <==> a * a < b * b
  {
    if a < b { PosMul(b - a, b + a); }
    else if b < a { PosMul(a - b, a + b); }
  }

  /** Squares of non-negative numbers grow with the numbers. */
  lemma SquareGrows(a: real, b: real)
    requires 0.0 <= a < b
    ensures Power(a, 2) < Power(b, 2)
  {
    assert Power(a, 1) == a;
    assert Power(b, 1) == b;
    MulLe(a, b, b);
    MulCommutes(a, b);
    if 0.0 < a {
      MulStrict(a, b, a);
    } else {
      PosMul(b, b);
    }
  }

  /** A positive number divided by a larger divisor gives less. */
  lemma DivByLarger(c: real, p: real, q: real)
    requires 0.0 < c && 0.0 < p < q
    ensures 0.0 < c / q < c / p
  {
    DivPos(c, q);
    if c / p <= c / q {
      MulCommutes(p, c / q);
      MulCommutes(q, c / q);
      DivIdentity(c, p);
      DivIdentity(c, q);
      MulLe(c / p, c / q, p);
      MulStrict(p, q, c / q);
    }
  }

  // ---------------------------------------------------------------------
  // Consequences of the laws

  lemma SqrtNonNegative(m: Libm, x: real)
    requires Lawful(m) && 0.0 <= x
    ensures 0.0 <= m.sqrt(x)
    ensures 0.0 < x ==> 0.0 < m.sqrt(x)
  {
    if 0.0 < x { assert m.sqrt(0.0) < m.sqrt(x); }
  }

  lemma SqrtMonotone(m: Libm, x: real, y: real)
    requires Lawful(m) && 0.0 <= x <= y
    ensures m.sqrt(x) <= m.sqrt(y)
    ensures x < y ==> m.sqrt(x) < m.sqrt(y)
  {
    if x < y { assert m.sqrt(x) < m.sqrt(y); }
  }

  /** The square root exceeds 1 above 1 and stays below 1 on [0, 1). */
  lemma SqrtAboveOne(m: Libm, x: real)
    requires Lawful(m) && 1.0 < x
    ensures 1.0 < m.sqrt(x)
  {
    assert m.sqrt(1.0) < m.sqrt(x);
  }

  lemma SqrtBelowOne(m: Libm, x: real)
    requires Lawful(m) && 0.0 <= x < 1.0
    ensures m.sqrt(x) < 1.0
  {
    assert m.sqrt(x) < m.sqrt(1.0);
  }

  /** The square root at a point equal to 1. */
  lemma SqrtAtOne(m: Libm, x: real)
    requires Lawful(m) && x == 1.0
    ensures m.sqrt(x) == 1.0
  {
  }

  /** `acos` takes [-1, 1] into [0, PI], and reaches PI only at -1. */
  lemma AcosRange(m: Libm, c: real)
    requires Lawful(m) && -1.0 <= c <= 1.0
    ensures 0.0 <= m.acos(c) <= PI
    ensures m.acos(c) == PI <==> c == -1.0
  {
    if -1.0 < c { assert m.acos(c) < m.acos(-1.0); }
    if c < 1.0 { assert m.acos(1.0) < m.acos(c); }
  }

  /** On [-1, 0) `acos` lies in (PI/2, PI]. */
  lemma AcosOfNegative(m: Libm, c: real)
    requires Lawful(m) && -1.0 <= c < 0.0
    ensures PI / 2.0 < m.acos(c) <= PI
  {
    AcosRange(m, c);
    assert m.acos(0.0) < m.acos(c);
  }

  /** `acos` at a point equal to -1 or to 1 takes its landmark value there. */
  lemma AcosAt(acos: real -> real, c: real, landmark: real)
    requires AcosLaws(acos) && c == landmark
    ensures landmark == -1.0 ==> acos(c) == PI
    ensures landmark == 1.0 ==> acos(c) == 0.0
  {
  }

  /** `x ** 1.5` at a point equal to 1. */
  lemma Pow15AtOne(m: Libm, x: real)
    requires Lawful(m) && x == 1.0
    ensures m.pow15(x) == 1.0
  {
  }

  /** On (0, 1) `x ** 1.5` stays in (0, 1). */
  lemma Pow15Between(m: Libm, x: real)
    requires Lawful(m) && 0.0 < x < 1.0
    ensures 0.0 < m.pow15(x) < 1.0
  {
    assert m.pow15(0.0) < m.pow15(x) < m.pow15(1.0);
  }

  /** A fraction strictly between 0 and 1 of PI lies strictly between 0 and
      PI. */
  lemma WithinPi(f: real)
    requires 0.0 < f < 1.0
    ensures 0.0 < PI * f < PI
  {
    PosMul(PI, f);
    MulStrict(f, 1.0, PI);
  }

  /** `exp` at a point equal to 0. */
  lemma ExpAtZero(m: Libm, x: real)
    requires Lawful(m) && x == 0.0
    ensures m.exp(x) == 1.0
  {
  }

  lemma ExpSign(m: Libm, x: real)
    requires Lawful(m)
    ensures 0.0 < m.exp(x)
    ensures 0.0 < x ==> 1.0 < m.exp(x)
    ensures x < 0.0 ==> m.exp(x) < 1.0
  {
    if 0.0 < x { assert m.exp(0.0) < m.exp(x); }
    if x < 0.0 { assert m.exp(x) < m.exp(0.0); }
  }
}
