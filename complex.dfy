/**
  * Complex numbers of the `numbers` namespace: a value type with the field
  * operations, conjugate, negation and the squared magnitude, over exact reals.
  */
module ComplexNumbers {

  /** A point of the complex plane; `re` and `im` are the accessors re() and im(). */
  datatype Complex = Complex(re: real, im: real)

  /** The value a default-constructed complex holds. */
  const Zero := Complex(0.0, 0.0)

  /** abs2(): re² + im², the denominator of division. */
  function Abs2(a: Complex): real
  {
    Square(a.re) + Square(a.im)
  }

  /** The squared magnitude is never negative and vanishes only at the origin. */
  lemma Abs2ZeroOnlyAtOrigin(a: Complex)
    ensures Abs2(a) >= 0.0
    ensures Abs2(a) == 0.0 <==> a == Zero
  {
    SquareNonNegative(a.re);
    SquareNonNegative(a.im);
    SquareZero(a.re);
    SquareZero(a.im);
  }

  function Square(x: real): real
  {
    x * x
  }

  lemma SquareNonNegative(x: real)
    ensures Square(x) >= 0.0
  {
    if x < 0.0 {
      assert x * x == (-x) * (-x);
    }
  }

  lemma SquareZero(x: real)
    ensures Square(x) == 0.0 ==> x == 0.0
  {
    if x != 0.0 {
      assert (x * x) / x == x;
    }
  }

  /** Free operator + : a copy of the left operand with the right added in. */
  function Add(a: Complex, b: Complex): Complex
  {
    Complex(a.re + b.re, a.im + b.im)
  }

  /** Free operator - : the difference, which adding `b` back undoes. */
  function Sub(a: Complex, b: Complex): (r: Complex)
    ensures Add(r, b) == a
  {
    Complex(a.re - b.re, a.im - b.im)
  }

  /** Free operator * : (ac − bd, ad + bc). */
  function Mul(a: Complex, b: Complex): Complex
  {
    Complex(a.re * b.re - a.im * b.im, a.re * b.im + a.im * b.re)
  }

  /**
    * Free operator / : both parts over abs2(b). The source does not guard a
    * zero divisor, so a divisor of zero magnitude is excluded here.
    */
  function Div(a: Complex, b: Complex): Complex
    requires Abs2(b) != 0.0
  {
    var n := Abs2(b);
    Complex((a.re * b.re + a.im * b.im) / n, (a.im * b.re - a.re * b.im) / n)
  }

  /** Unary ~ : the conjugate, which keeps the real part and negates the imaginary part. */
  function Conj(a: Complex): (r: Complex)
    ensures r.re == a.re && r.im == -a.im
    ensures Add(a, r).im == 0.0 && Sub(a, r).re == 0.0
  {
    Complex(a.re, -a.im)
  }

  /** Unary - : the negation, the additive inverse. */
  function Neg(a: Complex): (r: Complex)
    ensures Add(a, r) == Zero
    ensures Sub(Zero, a) == r
  {
    Complex(-a.re, -a.im)
  }

  // ---------------------------------------------------------------------
  // Algebraic properties of the formulas

  lemma AddCommutes(a: Complex, b: Complex)
    ensures Add(a, b) == Add(b, a)
  {
  }

  lemma AddAssociates(a: Complex, b: Complex, c: Complex)
    ensures Add(Add(a, b), c) == Add(a, Add(b, c))
  {
  }

  lemma MulCommutes(a: Complex, b: Complex)
    ensures Mul(a, b) == Mul(b, a)
  {
  }

  /** Subtraction is addition of the negation. */
  lemma SubIsAddNeg(a: Complex, b: Complex)
    ensures Sub(a, b) == Add(a, Neg(b))
  {
  }

  /** A number times its conjugate is the real number abs2. */
  lemma MulConj(a: Complex)
    ensures Mul(a, Conj(a)) == Complex(Abs2(a), 0.0)
  {
  }

  /** The squared magnitude is multiplicative. */
  lemma {:induction false} Abs2Mul(a: Complex, b: Complex)
    ensures Abs2(Mul(a, b)) == Abs2(a) * Abs2(b)
  {
    var x, y, u, v := a.re, a.im, b.re, b.im;
    calc {
      Abs2(Mul(a, b));
      (x * u - y * v) * (x * u - y * v) + (x * v + y * u) * (x * v + y * u);
      x * x * u * u + y * y * v * v + x * x * v * v + y * y * u * u;
      (x * x + y * y) * (u * u + v * v);
      Abs2(a) * Abs2(b);
    }
  }

  /** Division undoes multiplication by a divisor of non-zero magnitude. */
  lemma DivUndoesMul(a: Complex, b: Complex)
    requires Abs2(b) != 0.0
    ensures Div(Mul(a, b), b) == a
  {
    DivOfProductRe(a, b);
    DivOfProductIm(a, b);
  }

  /** Multiplication by the divisor undoes division by it. */
  lemma MulUndoesDiv(a: Complex, b: Complex)
    requires Abs2(b) != 0.0
    ensures Mul(Div(a, b), b) == a
  {
    QuotientTimesDivisorRe(a, b);
    QuotientTimesDivisorIm(a, b);
  }

  lemma DivOfProductRe(a: Complex, b: Complex)
    requires Abs2(b) != 0.0
    ensures Div(Mul(a, b), b).re == a.re
  {
    var x, y, u, v := a.re, a.im, b.re, b.im;
    var n := Abs2(b);
    assert n == u * u + v * v;
    var p := Mul(a, b);
    assert p.re * u + p.im * v == x * n by {
      calc {
        p.re * u + p.im * v;
        (x * u - y * v) * u + (x * v + y * u) * v;
        x * (u * u + v * v);
      }
    }
    assert Div(p, b).re == (p.re * u + p.im * v) / n;
    assert (x * n) / n == x;
  }

  lemma DivOfProductIm(a: Complex, b: Complex)
    requires Abs2(b) != 0.0
    ensures Div(Mul(a, b), b).im == a.im
  {
    var x, y, u, v := a.re, a.im, b.re, b.im;
    var n := Abs2(b);
    assert n == u * u + v * v;
    var p := Mul(a, b);
    assert p.im * u - p.re * v == y * n by {
      calc {
        p.im * u - p.re * v;
        (x * v + y * u) * u - (x * u - y * v) * v;
        y * (u * u + v * v);
      }
    }
    assert Div(p, b).im == (p.im * u - p.re * v) / n;
    assert (y * n) / n == y;
  }

  lemma QuotientTimesDivisorRe(a: Complex, b: Complex)
    requires Abs2(b) != 0.0
    ensures Mul(Div(a, b), b).re == a.re
  {
    var x, y, u, v := a.re, a.im, b.re, b.im;
    var n := Abs2(b);
    assert n == u * u + v * v;
    var q := Div(a, b);
    var s, t := q.re, q.im;
    assert s * n == x * u + y * v;
    assert t * n == y * u - x * v;
    assert (s * u - t * v) * n == x * n by {
      calc {
        (s * u - t * v) * n;
        (s * n) * u - (t * n) * v;
        (x * u + y * v) * u - (y * u - x * v) * v;
        x * (u * u + v * v);
      }
    }
  }

  lemma QuotientTimesDivisorIm(a: Complex, b: Complex)
    requires Abs2(b) != 0.0
    ensures Mul(Div(a, b), b).im == a.im
  {
    var x, y, u, v := a.re, a.im, b.re, b.im;
    var n := Abs2(b);
    assert n == u * u + v * v;
    var q := Div(a, b);
    var s, t := q.re, q.im;
    assert s * n == x * u + y * v;
    assert t * n == y * u - x * v;
    assert (s * v + t * u) * n == y * n by {
      calc {
        (s * v + t * u) * n;
        (s * n) * v + (t * n) * u;
        (x * u + y * v) * v + (y * u - x * v) * u;
        y * (u * u + v * v);
      }
    }
  }

  /** ~ and unary - are involutions. */
  lemma UnaryInvolutions(a: Complex)
    ensures Conj(Conj(a)) == a && Neg(Neg(a)) == a
  {
  }

  // ---------------------------------------------------------------------
  // The class `complex` as a mutable object: the compound assignments

  /** A `complex` object whose two fields the compound assignments update in place. */
  class ComplexVar {
    var re: real
    var im: real

    function Value(): Complex
      reads this
    {
      Complex(re, im)
    }

    /** complex(double real = 0, double imag = 0). */
    constructor (re: real, im: real)
      ensures Value() == Complex(re, im)
    {
      this.re := re;
      this.im := im;
    }

    /** operator += ; correct also when `a` is this object itself. */
    method AddAssign(a: ComplexVar)
      modifies this
      ensures Value() == Add(old(Value()), old(a.Value()))
    {
      re := re + a.re;
      im := im + a.im;
    }

    /** operator -= ; correct also when `a` is this object itself. */
    method SubAssign(a: ComplexVar)
      modifies this
      ensures Value() == Sub(old(Value()), old(a.Value()))
    {
      re := re - a.re;
      im := im - a.im;
    }

    /** operator *= ; both new parts are computed before either field is written. */
    method MulAssign(a: ComplexVar)
      modifies this
      ensures Value() == Mul(old(Value()), old(a.Value()))
    {
      var newRe := re * a.re - im * a.im;
      var newIm := re * a.im + im * a.re;
      re := newRe;
      im := newIm;
    }

    /** operator /= ; the divisor's squared magnitude must be non-zero. */
    method DivAssign(a: ComplexVar)
      requires Abs2(a.Value()) != 0.0
      modifies this
      ensures Value() == Div(old(Value()), old(a.Value()))
    {
      var n := a.re * a.re + a.im * a.im;
      assert n == Abs2(a.Value());
      var newRe := (re * a.re + im * a.im) / n;
      var newIm := (im * a.re - re * a.im) / n;
      assert Complex(newRe, newIm) == Div(Value(), a.Value());
      re := newRe;
      im := newIm;
    }
  }

  // The free binary operators: copy the left operand, apply the compound
  // assignment to the copy, return it; neither argument is modified.

  method Sum(a: ComplexVar, b: ComplexVar) returns (r: ComplexVar)
    ensures fresh(r) && r.Value() == Add(a.Value(), b.Value())
  {
    r := new ComplexVar(a.re, a.im);
    r.AddAssign(b);
  }

  method Difference(a: ComplexVar, b: ComplexVar) returns (r: ComplexVar)
    ensures fresh(r) && r.Value() == Sub(a.Value(), b.Value())
  {
    r := new ComplexVar(a.re, a.im);
    r.SubAssign(b);
  }

  method Product(a: ComplexVar, b: ComplexVar) returns (r: ComplexVar)
    ensures fresh(r) && r.Value() == Mul(a.Value(), b.Value())
  {
    r := new ComplexVar(a.re, a.im);
    r.MulAssign(b);
  }

  method Quotient(a: ComplexVar, b: ComplexVar) returns (r: ComplexVar)
    requires Abs2(b.Value()) != 0.0
    ensures fresh(r) && r.Value() == Div(a.Value(), b.Value())
  {
    r := new ComplexVar(a.re, a.im);
    r.DivAssign(b);
  }
}
