/** Exact real arithmetic standing in for the scripts' NumPy floats: a floor-based
    modulo with Python's sign-of-divisor convention, an absolute value, and the
    trigonometry the scripts borrow from NumPy, passed around as an uninterpreted
    record of functions together with the few identities the proofs rely on. */
module RealMath {

  /** A strictly positive real, the type of pi. */
  type Positive = r: real | r > 0.0 witness 1.0

  /** The trigonometric functions used by the scripts (np.pi, np.sin, np.cos,
      np.arccos, np.arctan2). Nothing is assumed about them except what a lemma
      states explicitly in its requires clause. */
  datatype Trig = Trig(
    pi: Positive,
    sin: real -> real,
    cos: real -> real,
    arccos: real -> real,
    atan2: (real, real) -> real)

  /** The angle-subtraction identity sin(a - b) = sin a cos b - cos a sin b. */
  ghost predicate SineSubtraction(tr: Trig)
  {
    forall a: real, b: real :: tr.sin(a - b) == tr.sin(a) * tr.cos(b) - tr.cos(a) * tr.sin(b)
  }

  /** sin^2 a + cos^2 a = 1. */
  ghost predicate Pythagorean(tr: Trig)
  {
    forall a: real :: tr.sin(a) * tr.sin(a) + tr.cos(a) * tr.cos(a) == 1.0
  }

  /** The two zeros of sine that the singularity discussion refers to. */
  ghost predicate SineZeros(tr: Trig)
  {
    tr.sin(0.0) == 0.0 && tr.sin(tr.pi) == 0.0
  }

  function Abs(x: real): (r: real)
    ensures r >= 0.0
    ensures r == x || r == -x
  {
    if x < 0.0 then -x else x
  }

  /** floor(x / m), the quotient that Python's `%` pairs with its remainder. */
  function FloorDiv(x: real, m: real): int
    requires m > 0.0
  {
    (x / m).Floor
  }

  /** Python's `x % m` for a positive divisor: the remainder takes the sign of
      the divisor, so it lies in [0, m), and x is that remainder plus a whole
      number of m. */
  function FloorMod(x: real, m: real): (r: real)
    requires m > 0.0
    ensures 0.0 <= r < m
    ensures x == FloorDiv(x, m) as real * m + r
  {
    var q := FloorDiv(x, m) as real;
    DivMulCancel(x, m);
    BetweenMultiples(q, x / m, m, x);
    x - q * m
  }

  /** From q <= d < q + 1 and d m = x with m > 0: x lies in [q m, q m + m). */
  lemma BetweenMultiples(q: real, d: real, m: real, x: real)
    requires m > 0.0
    requires q <= d < q + 1.0
    requires d * m == x
    ensures q * m <= x < q * m + m
  {
    MulMonotone(q, d, m);
    MulMonotone(d, q + 1.0, m);
    Distributes(q, 1.0, m);
    calc {
      x;
    ==
      d * m;
    <
      (q + 1.0) * m;
    ==
      q * m + m;
    }
  }

  /** The remainder is unique: any decomposition x = k*m + r with r in [0, m)
      is the one FloorMod finds. */
  lemma {:induction false} FloorModUnique(x: real, m: real, k: int, r: real)
    requires m > 0.0
    requires 0.0 <= r < m
    requires x == k as real * m + r
    ensures FloorDiv(x, m) == k
    ensures FloorMod(x, m) == r
  {
    var q := FloorDiv(x, m);
    var r' := FloorMod(x, m);
    Distributes(k as real, q as real, m);
    assert (k - q) as real * m == r' - r;
    if k - q >= 1 {
      MulMonotone(1.0, (k - q) as real, m);
    } else if k - q <= -1 {
      MulMonotone((k - q) as real, -1.0, m);
    }
  }

  /** Adding whole multiples of m does not change the remainder. */
  lemma {:induction false} FloorModShift(x: real, y: real, m: real, k: int)
    requires m > 0.0
    requires y == x + k as real * m
    ensures FloorMod(y, m) == FloorMod(x, m)
  {
    var q := FloorDiv(x, m);
    var r := FloorMod(x, m);
    Distributes(q as real, k as real, m);
    calc {
      y;
    ==
      q as real * m + r + k as real * m;
    ==
      (q + k) as real * m + r;
    }
    FloorModUnique(y, m, q + k, r);
  }

  /** At least one whole m away from zero. */
  lemma WholeMultiples(j: int, m: real)
    requires m > 0.0
    ensures j >= 1 ==> j as real * m >= m
    ensures j <= -1 ==> j as real * m <= -m
    ensures j == 0 ==> j as real * m == 0.0
  {
    if j >= 1 {
      MulMonotone(1.0, j as real, m);
    } else if j <= -1 {
      MulMonotone(j as real, -1.0, m);
    }
  }

  /** Multiplying by a positive factor preserves order. */
  lemma MulMonotone(a: real, b: real, m: real)
    requires m > 0.0
    ensures a <= b ==> a * m <= b * m
    ensures a < b ==> a * m < b * m
  {
  }

  lemma Distributes(a: real, b: real, m: real)
    ensures (a + b) * m == a * m + b * m
    ensures (a - b) * m == a * m - b * m
  {
  }

  lemma DivMulCancel(x: real, m: real)
    requires m != 0.0
    ensures x / m * m == x
  {
  }

  /** A non-zero factor can be cancelled. */
  lemma MulCancel(a: real, b: real, m: real)
    requires m != 0.0
    requires a * m == b * m
    ensures a == b
  {
    DivMulCancel(a * m, m);
    assert a * m / m == a;
  }

  /** A product with a non-zero factor vanishes only when the other factor does. */
  lemma ZeroFactor(a: real, p: real)
    requires p != 0.0
    requires a * p == 0.0
    ensures a == 0.0
  {
    MulCancel(a, 0.0, p);
  }

  /** Python's `x ** 2`. */
  function Square(x: real): (r: real)
    ensures r >= 0.0
  {
    x * x
  }

  /** Python's `x ** 3`. */
  function Cube(x: real): (r: real)
    ensures r == Square(x) * x
  {
    x * x * x
  }

  lemma CubeNonZero(s: real)
    requires s != 0.0
    ensures Cube(s) != 0.0
  {
  }

  /** The square of a non-zero number is positive and its cube non-zero. */
  lemma PowersNonZero(s: real)
    requires s != 0.0
    ensures Square(s) > 0.0 && Cube(s) != 0.0
  {
    CubeNonZero(s);
  }

  /** A quotient of a non-negative number by a larger one lies in [0, 1). */
  lemma DivBelowOne(e: real, w: real)
    requires 0.0 <= e < w
    ensures 0.0 <= e / w < 1.0
  {
    MulMonotone(0.0, e, 1.0 / w);
    MulMonotone(e, w, 1.0 / w);
  }

  lemma SquareNonNegative(x: real)
    ensures x * x >= 0.0
  {
    if x > 0.0 {
      MulMonotone(0.0, x, x);
    } else if x < 0.0 {
      MulMonotone(x, 0.0, -x);
    }
  }
}
