/** Values shared by the whole model: complex numbers as pairs of reals, the
    parameter store and coefficient dictionaries, dictionary keys, and the
    exceptions the Python code can raise, turned into a Result. */
module Base {

  /** A Python `complex`, without floating-point rounding. */
  datatype Complex = Complex(re: real, im: real)

  const Zero: Complex := Complex(0.0, 0.0)

  /** `math.pi` and `math.sqrt(2)` as the decimal literals Python prints for them. */
  const Pi: real := 3.141592653589793
  const Sqrt2: real := 1.4142135623730951

  function Add(z: Complex, w: Complex): Complex
  {
    Complex(z.re + w.re, z.im + w.im)
  }

  function Neg(z: Complex): Complex
  {
    Complex(-z.re, -z.im)
  }

  function Mul(z: Complex, w: Complex): Complex
  {
    Complex(z.re * w.re - z.im * w.im, z.re * w.im + z.im * w.re)
  }

  /** A complex number times a Python float. */
  function Scale(z: Complex, x: real): Complex
  {
    Complex(z.re * x, z.im * x)
  }

  /** A complex number divided by a non-zero Python float. */
  function Div(z: Complex, x: real): Complex
    requires x != 0.0
  {
    Complex(z.re / x, z.im / x)
  }

  /** `abs(z)**2`, the squared modulus. */
  function AbsSquared(z: Complex): real
  {
    z.re * z.re + z.im * z.im
  }

  /** The squared modulus is never negative and is zero only at zero. */
  lemma AbsSquaredPositive(z: Complex)
    ensures AbsSquared(z) >= 0.0
    ensures z != Zero ==> AbsSquared(z) > 0.0
  {
    SumOfSquares(z.re, z.im);
    if z != Zero {
      assert z.re != 0.0 || z.im != 0.0;
      calc {
        AbsSquared(z);
        ==
        z.re * z.re + z.im * z.im;
        >
        0.0;
      }
    }
  }

  lemma SumOfSquares(x: real, y: real)
    ensures x * x + y * y >= 0.0
    ensures x != 0.0 || y != 0.0 ==> x * x + y * y > 0.0
  {
    if x != 0.0 {
      SquarePositive(x);
      SquareNonNegative(y);
    } else if y != 0.0 {
      SquarePositive(y);
      SquareNonNegative(x);
    } else {
      SquareNonNegative(x);
      SquareNonNegative(y);
    }
  }

  lemma SquarePositive(x: real)
    requires x != 0.0
    ensures x * x > 0.0
  {
    if x < 0.0 {
      assert x * x == (-x) * (-x);
    }
  }

  lemma SquareNonNegative(x: real)
    ensures x * x >= 0.0
  {
    if x != 0.0 {
      SquarePositive(x);
    }
  }

  lemma MulZero(z: Complex)
    ensures Mul(z, Zero) == Zero
  {
    assert z.re * 0.0 == 0.0 && z.im * 0.0 == 0.0;
  }

  lemma MulDistributes(z: Complex, u: Complex, v: Complex)
    ensures Mul(z, Add(u, v)) == Add(Mul(z, u), Mul(z, v))
  {
    assert z.re * (u.re + v.re) == z.re * u.re + z.re * v.re;
    assert z.im * (u.im + v.im) == z.im * u.im + z.im * v.im;
    assert z.re * (u.im + v.im) == z.re * u.im + z.re * v.im;
    assert z.im * (u.re + v.re) == z.im * u.re + z.im * v.re;
  }

  lemma AddZero(z: Complex)
    ensures Add(z, Zero) == z && Add(Zero, z) == z
  {
  }

  /** A non-zero complex number times a non-zero float is non-zero. */
  lemma ScaleNonzero(z: Complex, x: real)
    requires z != Zero && x != 0.0
    ensures Scale(z, x) != Zero
  {
    if z.re != 0.0 {
      ProductNonzero(z.re, x);
    } else {
      assert z.im != 0.0;
      ProductNonzero(z.im, x);
    }
  }

  /** A non-zero complex number over a non-zero float is non-zero. */
  lemma DivNonzero(z: Complex, x: real)
    requires z != Zero && x != 0.0
    ensures Div(z, x) != Zero
  {
    if z.re != 0.0 {
      assert (z.re / x) * x == z.re;
    } else {
      assert z.im != 0.0;
      assert (z.im / x) * x == z.im;
    }
  }

  lemma ProductNonzero(x: real, y: real)
    requires x != 0.0 && y != 0.0
    ensures x * y != 0.0
  {
    assert (x * y) / y == x;
  }

  lemma ProductNonNegative(x: real, y: real)
    requires x >= 0.0 && y >= 0.0
    ensures x * y >= 0.0
  {
  }

  lemma QuotientNonNegative(x: real, y: real)
    requires x >= 0.0 && y > 0.0
    ensures x / y >= 0.0
  {
  }

  /** Multiplying by `s` and then dividing by `s` cancels, as in `xi_t * X / s2w`
      with `X = -(CL + CR) * s2w`. */
  lemma ScaleThenDivCancels(z: Complex, w: Complex, s: real)
    requires s != 0.0
    ensures Div(Mul(z, Scale(w, s)), s) == Mul(z, w)
  {
    var a, b := z.re * (w.re * s) - z.im * (w.im * s), z.re * (w.im * s) + z.im * (w.re * s);
    assert a == (z.re * w.re - z.im * w.im) * s;
    assert b == (z.re * w.im + z.im * w.re) * s;
  }

  /** A NumPy `float64` result: a finite value, or the `inf` or `nan` that
      NumPy produces, with a warning, where plain Python would raise a
      division by zero. Once a result is not finite, no later product, sum
      or quotient with a finite number makes it finite again. */
  datatype Float = Finite(x: real) | NonFinite

  /** The key of a Python dictionary as used in this model: a bare string or a
      pair of strings such as `('B0','K*0')`. */
  datatype Key = Name(name: string) | Pair(first: string, second: string)

  /** The parameter store `par`: parameter names to (real) values. */
  type Par = map<string, real>

  /** A dictionary of Wilson coefficients, from label to complex value. */
  type WcDict = map<string, Complex>

  /** The Wilson coefficient object `wc_obj` handed in by the caller: the
      new-physics coefficients it was set up with, by name. */
  type WcObj = map<string, Complex>

  /** The exceptions the modelled Python code raises. */
  datatype Error =
    | KeyError(key: Key)            // a dictionary lookup on a missing key
    | ZeroDivisionError             // a Python division by zero
    | MathDomainError               // math.sqrt of a negative number
    | AuxiliaryNotFound(name: string) // no auxiliary quantity registered under this name
    | WrongAuxiliaryKind(name: string) // the provider registered under this name has another signature
    | KeyMismatch                   // summing helicity-amplitude dictionaries with different keys
    | DuplicateObservable(name: string) // an observable of this name already exists
    | NotFound(name: string)        // no prediction is bound to this observable name

  /** The outcome of a Python call: a value, or the exception it raised. */
  datatype Result<+T> = Ok(value: T) | Err(error: Error) {
    predicate IsFailure() {
      Err?
    }

    function PropagateFailure<U>(): Result<U>
      requires Err?
    {
      Err(error)
    }

    function Extract(): T
      requires Ok?
    {
      value
    }
  }

  /** `d[k]` on a dictionary with string keys. */
  function Lookup<V>(d: map<string, V>, k: string): Result<V>
  {
    if k in d then Ok(d[k]) else Err(KeyError(Name(k)))
  }
}
