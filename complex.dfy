/** Exact complex numbers over `real`, standing for numpy's complex128. */
module Complex {

  datatype Complex = Complex(re: real, im: real)

  const Zero: Complex := Complex(0.0, 0.0)
  const One: Complex := Complex(1.0, 0.0)

  /** The float64 value of 2*pi (numpy's `2*np.pi`), written out exactly. */
  const TwoPi: real := 6.28318530717958623199592693708837032318115234375

  function Real(x: real): Complex { Complex(x, 0.0) }

  function Add(a: Complex, b: Complex): Complex { Complex(a.re + b.re, a.im + b.im) }

  function Sub(a: Complex, b: Complex): Complex { Complex(a.re - b.re, a.im - b.im) }

  function Mul(a: Complex, b: Complex): Complex {
    Complex(a.re * b.re - a.im * b.im, a.re * b.im + a.im * b.re)
  }

  /** Multiplication by a real scalar. */
  function Scale(x: real, a: Complex): Complex { Complex(x * a.re, x * a.im) }

  /** The squared modulus |a|^2. */
  function NormSq(a: Complex): real { a.re * a.re + a.im * a.im }

  lemma NormSqZero(a: Complex)
    ensures NormSq(a) >= 0.0
    ensures NormSq(a) == 0.0 <==> a == Zero
  {
    SquareNonNegative(a.re);
    SquareNonNegative(a.im);
    if NormSq(a) == 0.0 {
      assert a.re * a.re == 0.0 && a.im * a.im == 0.0;
      SquareZero(a.re);
      SquareZero(a.im);
    }
  }

  lemma MulPositive(x: real, y: real)
    requires x > 0.0 && y > 0.0
    ensures x * y > 0.0
  {
  }

  lemma SquareNonNegative(x: real)
    ensures x * x >= 0.0
  {
    if x < 0.0 {
      MulPositive(-x, -x);
    } else if x > 0.0 {
      MulPositive(x, x);
    }
  }

  lemma SquareZero(x: real)
    requires x * x == 0.0
    ensures x == 0.0
  {
    if x != 0.0 {
      ProductZero(x, x);
    }
  }

  lemma ProductZero(x: real, y: real)
    requires x * y == 0.0 && x != 0.0
    ensures y == 0.0
  {
    assert (x * y) / x == y;
  }

  /** Complex division; the quotient is the unique q with q * b == a. */
  function Div(a: Complex, b: Complex): (q: Complex)
    requires b != Zero
    ensures Mul(q, b) == a
  {
    NormSqZero(b);
    var n := NormSq(b);
    var q := Complex((a.re * b.re + a.im * b.im) / n, (a.im * b.re - a.re * b.im) / n);
    DivIsQuotient(a, b, n, q);
    q
  }

  lemma DivIsQuotient(a: Complex, b: Complex, n: real, q: Complex)
    requires n == NormSq(b) && n != 0.0
    requires q == Complex((a.re * b.re + a.im * b.im) / n, (a.im * b.re - a.re * b.im) / n)
    ensures Mul(q, b) == a
  {
    QuotientRe(a, b, n);
    QuotientIm(a, b, n);
  }

  lemma QuotientRe(a: Complex, b: Complex, n: real)
    requires n == NormSq(b) && n != 0.0
    ensures ((a.re * b.re + a.im * b.im) / n) * b.re - ((a.im * b.re - a.re * b.im) / n) * b.im == a.re
  {
    var x, y := a.re * b.re + a.im * b.im, a.im * b.re - a.re * b.im;
    assert x * b.re == a.re * b.re * b.re + a.im * b.im * b.re;
    assert y * b.im == a.im * b.re * b.im - a.re * b.im * b.im;
    calc {
      (x / n) * b.re - (y / n) * b.im;
      (x * b.re - y * b.im) / n;
      { assert x * b.re - y * b.im == a.re * n; }
      (a.re * n) / n;
    }
  }

  lemma QuotientIm(a: Complex, b: Complex, n: real)
    requires n == NormSq(b) && n != 0.0
    ensures ((a.re * b.re + a.im * b.im) / n) * b.im + ((a.im * b.re - a.re * b.im) / n) * b.re == a.im
  {
    var x, y := a.re * b.re + a.im * b.im, a.im * b.re - a.re * b.im;
    assert x * b.im == a.re * b.re * b.im + a.im * b.im * b.im;
    assert y * b.re == a.im * b.re * b.re - a.re * b.im * b.re;
    calc {
      (x / n) * b.im + (y / n) * b.re;
      (x * b.im + y * b.re) / n;
      { assert x * b.im + y * b.re == a.im * n; }
      (a.im * n) / n;
    }
  }

  // Ring laws used by the matrix algebra.

  lemma MulComm(a: Complex, b: Complex)
    ensures Mul(a, b) == Mul(b, a)
  {
  }

  lemma MulAssoc(a: Complex, b: Complex, c: Complex)
    ensures Mul(Mul(a, b), c) == Mul(a, Mul(b, c))
  {
    assert Mul(Mul(a, b), c).re == Mul(a, Mul(b, c)).re;
    assert Mul(Mul(a, b), c).im == Mul(a, Mul(b, c)).im;
  }

  lemma MulAddLeft(a: Complex, b: Complex, c: Complex)
    ensures Mul(Add(a, b), c) == Add(Mul(a, c), Mul(b, c))
  {
  }

  lemma MulAddRight(a: Complex, b: Complex, c: Complex)
    ensures Mul(a, Add(b, c)) == Add(Mul(a, b), Mul(a, c))
  {
  }

  lemma MulOne(a: Complex)
    ensures Mul(a, One) == a && Mul(One, a) == a
  {
  }

  lemma AddAssoc(a: Complex, b: Complex, c: Complex)
    ensures Add(Add(a, b), c) == Add(a, Add(b, c))
  {
  }

  lemma MulZero(a: Complex)
    ensures Mul(a, Zero) == Zero && Mul(Zero, a) == Zero
  {
  }

  lemma NormSqMul(a: Complex, b: Complex)
    ensures NormSq(Mul(a, b)) == NormSq(a) * NormSq(b)
  {
    var p, q, r, s := a.re, a.im, b.re, b.im;
    assert (p * r - q * s) * (p * r - q * s) + (p * s + q * r) * (p * s + q * r)
        == (p * p + q * q) * (r * r + s * s);
  }

  /** A product of two nonzero numbers is nonzero. */
  lemma MulNonZero(a: Complex, b: Complex)
    requires a != Zero && b != Zero
    ensures Mul(a, b) != Zero
  {
    NormSqZero(a);
    NormSqZero(b);
    var m := Mul(a, b);
    NormSqMul(a, b);
    NonZeroProductOf(NormSq(m), NormSq(a), NormSq(b));
    NormSqZero(m);
  }

  /** n == x y with both factors nonzero is nonzero (stated on names, which keeps the solver linear). */
  lemma NonZeroProductOf(n: real, x: real, y: real)
    requires n == x * y && x != 0.0 && y != 0.0
    ensures n != 0.0
  {
    if n == 0.0 {
      ProductZero(x, y);
    }
  }

  /** The quotient is the only solution of q * b == a. */
  lemma DivUnique(a: Complex, b: Complex, q: Complex)
    requires b != Zero && Mul(q, b) == a
    ensures q == Div(a, b)
  {
    var d := Div(a, b);
    var e := Sub(q, d);
    assert Mul(e, b) == Sub(Mul(q, b), Mul(d, b));
    if e != Zero {
      MulNonZero(e, b);
    }
  }
}
