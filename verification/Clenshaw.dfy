// Clenshaw summation of sine series (geofunctions.cc), over exact reals. The four transcendental
// functions are parameters; what is used of them is parity and the addition laws.
module Clenshaw {

  datatype Trig = Trig(sin: real -> real, cos: real -> real, sinh: real -> real, cosh: real -> real)

  // Parity at a and the addition laws at a and b.
  ghost predicate CircularAt(f: Trig, a: real, b: real) {
    && f.sin(-a) == -f.sin(a)
    && f.cos(-a) == f.cos(a)
    && f.sin(a + b) == f.sin(a) * f.cos(b) + f.cos(a) * f.sin(b)
    && f.cos(a + b) == f.cos(a) * f.cos(b) - f.sin(a) * f.sin(b)
  }

  ghost predicate HyperbolicAt(f: Trig, a: real, b: real) {
    && f.sinh(-a) == -f.sinh(a)
    && f.cosh(-a) == f.cosh(a)
    && f.sinh(a + b) == f.sinh(a) * f.cosh(b) + f.cosh(a) * f.sinh(b)
    && f.cosh(a + b) == f.cosh(a) * f.cosh(b) + f.sinh(a) * f.sinh(b)
  }

  ghost predicate Circular(f: Trig) {
    forall a, b :: CircularAt(f, a, b)
  }

  ghost predicate Hyperbolic(f: Trig) {
    forall a, b :: HyperbolicAt(f, a, b)
  }

  function Times(t: int, x: real): real {
    t as real * x
  }

  lemma {:induction false} TimesStep(t: int, x: real)
    ensures Times(t + 1, x) == Times(t, x) + x
    ensures Times(t - 1, x) == Times(t, x) + -x
  {
    assert (t + 1) as real == t as real + 1.0;
    assert (t - 1) as real == t as real - 1.0;
  }

  // ---- real argument ---------------------------------------------------------------------------------

  // The sum the documentation names: a[0] sin(x) + a[1] sin(2x) + ... + a[n-1] sin(nx).
  ghost function SineSum(f: Trig, a: seq<real>, n: nat, x: real): real
    requires n <= |a|
  {
    if n == 0 then 0.0 else SineSum(f, a, n - 1, x) + a[n - 1] * f.sin(Times(n, x))
  }

  lemma {:induction false} CircularSums(f: Trig, u: real, x: real)
    requires Circular(f)
    ensures f.sin(u + x) == f.sin(u) * f.cos(x) + f.cos(u) * f.sin(x)
    ensures f.sin(u + -x) == f.sin(u) * f.cos(x) - f.cos(u) * f.sin(x)
    ensures f.cos(u + x) == f.cos(u) * f.cos(x) - f.sin(u) * f.sin(x)
    ensures f.cos(u + -x) == f.cos(u) * f.cos(x) + f.sin(u) * f.sin(x)
  {
    assert CircularAt(f, u, x) && CircularAt(f, u, -x) && CircularAt(f, x, x);
    Negated(f.cos(u), f.sin(x));
    Negated(f.sin(u), f.sin(x));
  }

  lemma {:induction false} HyperbolicSums(f: Trig, v: real, y: real)
    requires Hyperbolic(f)
    ensures f.sinh(v + y) == f.sinh(v) * f.cosh(y) + f.cosh(v) * f.sinh(y)
    ensures f.sinh(v + -y) == f.sinh(v) * f.cosh(y) - f.cosh(v) * f.sinh(y)
    ensures f.cosh(v + y) == f.cosh(v) * f.cosh(y) + f.sinh(v) * f.sinh(y)
    ensures f.cosh(v + -y) == f.cosh(v) * f.cosh(y) - f.sinh(v) * f.sinh(y)
  {
    assert HyperbolicAt(f, v, y) && HyperbolicAt(f, v, -y) && HyperbolicAt(f, y, y);
    Negated(f.cosh(v), f.sinh(y));
    Negated(f.sinh(v), f.sinh(y));
  }

  lemma {:induction false} Negated(a: real, b: real)
    ensures a * -b == -(a * b)
  {
  }

  lemma {:induction false} SineRecurrence(f: Trig, t: int, x: real)
    requires Circular(f)
    ensures f.sin(Times(t + 1, x)) == 2.0 * f.cos(x) * f.sin(Times(t, x)) - f.sin(Times(t - 1, x))
  {
    TimesStep(t, x);
    CircularSums(f, Times(t, x), x);
  }

  lemma {:induction false} SineOfZero(f: Trig, x: real)
    requires Circular(f)
    ensures f.sin(Times(0, x)) == 0.0
  {
    assert Times(0, x) == 0.0;
    assert CircularAt(f, 0.0, 0.0);
  }

  // One step of the scheme, on any three values that obey the recurrence.
  lemma {:induction false} RealStep(a: real, c: real, h1: real, h2: real, next: real, here: real, before: real)
    requires next == c * here - before
    ensures (a + c * h1 - h2) * here - h1 * before == a * here + (h1 * next - h2 * here)
  {
    assert h1 * (c * here - before) == c * h1 * here - h1 * before;
    assert (a + c * h1 - h2) * here == a * here + c * h1 * here - h2 * here;
  }

  // What the loop keeps: terms 1 to t are still to be added; h and h1 stand for the others.
  ghost predicate Remains(f: Trig, a: seq<real>, n: nat, x: real, t: nat, h: real, h1: real)
    requires t <= n <= |a|
  {
    SineSum(f, a, n, x) == SineSum(f, a, t, x) + (h * f.sin(Times(t + 1, x)) - h1 * f.sin(Times(t, x)))
  }

  lemma {:induction false} RemainsStart(f: Trig, a: seq<real>, n: nat, x: real)
    requires n <= |a|
    ensures Remains(f, a, n, x, n, 0.0, 0.0)
  {
  }

  lemma {:induction false} RemainsStep(f: Trig, a: seq<real>, n: nat, x: real, t: nat, h: real, h1: real)
    requires 0 < t <= n <= |a| && Circular(f) && Remains(f, a, n, x, t, h, h1)
    ensures Remains(f, a, n, x, t - 1, a[t - 1] + 2.0 * f.cos(x) * h - h1, h)
  {
    SineRecurrence(f, t, x);
    RealStep(a[t - 1], 2.0 * f.cos(x), h, h1, f.sin(Times(t + 1, x)), f.sin(Times(t, x)), f.sin(Times(t - 1, x)));
  }

  lemma {:induction false} RemainsEnd(f: Trig, a: seq<real>, n: nat, x: real, h: real, h1: real)
    requires n <= |a| && Circular(f) && Remains(f, a, n, x, 0, h, h1)
    ensures SineSum(f, a, n, x) == h * f.sin(x)
  {
    SineOfZero(f, x);
    assert Times(1, x) == x;
  }

  method Clsin(f: Trig, ar: seq<real>, degree: int, argument: real) returns (result: real)
    requires Circular(f) && degree <= |ar|
    ensures result == SineSum(f, ar, if degree < 0 then 0 else degree, argument)
  {
    hide CircularAt, Times, Remains;
    var cosArg := 2.0 * f.cos(argument);
    var hr1, hr := 0.0, 0.0;
    var hr2;
    var t := degree;
    ghost var top := if degree < 0 then 0 else degree;
    if degree >= 0 {
      RemainsStart(f, ar, top, argument);
    }
    while t > 0
      invariant if degree < 0 then t == degree && hr == 0.0 else 0 <= t <= degree
      invariant degree >= 0 ==> Remains(f, ar, top, argument, t, hr, hr1)
    {
      RemainsStep(f, ar, top, argument, t, hr, hr1);
      hr2 := hr1;
      hr1 := hr;
      hr := ar[t - 1] + cosArg * hr1 - hr2;
      assert hr == ar[t - 1] + 2.0 * f.cos(argument) * hr1 - hr2;
      t := t - 1;
    }
    result := hr * f.sin(argument);
    if degree >= 0 {
      RemainsEnd(f, ar, top, argument, hr, hr1);
    }
  }

  // ---- complex argument --------------------------------------------------------------------------------

  datatype Complex = Complex(re: real, im: real)

  function Plus(u: Complex, v: Complex): Complex {
    Complex(u.re + v.re, u.im + v.im)
  }

  function Minus(u: Complex, v: Complex): Complex {
    Complex(u.re - v.re, u.im - v.im)
  }

  function Mul(u: Complex, v: Complex): Complex {
    Complex(u.re * v.re - u.im * v.im, u.re * v.im + u.im * v.re)
  }

  function Scale(a: real, v: Complex): Complex {
    Complex(a * v.re, a * v.im)
  }

  const ZERO := Complex(0.0, 0.0)

  // sin(t z) for z = x + iy.
  ghost function SinAt(f: Trig, t: int, x: real, y: real): Complex {
    Complex(f.sin(Times(t, x)) * f.cosh(Times(t, y)), f.cos(Times(t, x)) * f.sinh(Times(t, y)))
  }

  // 2 cos(z).
  function TwoCos(f: Trig, x: real, y: real): Complex {
    Complex(2.0 * f.cos(x) * f.cosh(y), -2.0 * f.sin(x) * f.sinh(y))
  }

  ghost function ComplexSineSum(f: Trig, a: seq<real>, n: nat, x: real, y: real): Complex
    requires n <= |a|
  {
    if n == 0 then ZERO else Plus(ComplexSineSum(f, a, n - 1, x, y), Scale(a[n - 1], SinAt(f, n, x, y)))
  }

  // (s c' + c s')(C C' + S S') + (s c' - c s')(C C' - S S') = 2 s c' C C' + 2 c s' S S'.
  lemma {:induction false} PairOfProducts(p: real, q: real, u: real, v: real)
    ensures (p + q) * (u + v) + (p - q) * (u - v) == 2.0 * (p * u) + 2.0 * (q * v)
  {
    assert (p + q) * (u + v) == p * u + p * v + q * u + q * v;
    assert (p - q) * (u - v) == p * u - p * v - q * u + q * v;
  }

  lemma {:induction false} Regroup(a: real, b: real, c: real, d: real)
    ensures (a * b) * (c * d) == (b * d) * (a * c)
  {
    assert (a * b) * (c * d) == a * (b * (c * d));
    assert b * (c * d) == c * (b * d);
    assert a * (c * (b * d)) == (a * c) * (b * d);
  }

  lemma {:induction false} ComplexRecurrence(f: Trig, t: int, x: real, y: real)
    requires Circular(f) && Hyperbolic(f)
    ensures SinAt(f, t + 1, x, y) == Minus(Mul(TwoCos(f, x, y), SinAt(f, t, x, y)), SinAt(f, t - 1, x, y))
  {
    TimesStep(t, x);
    TimesStep(t, y);
    var u, v := Times(t, x), Times(t, y);
    CircularSums(f, u, x);
    HyperbolicSums(f, v, y);
    hide CircularAt, HyperbolicAt, Circular, Hyperbolic, Mul, Minus, Times;
    RecurrenceForms(f.sin(Times(t + 1, x)), f.cos(Times(t + 1, x)), f.sinh(Times(t + 1, y)), f.cosh(Times(t + 1, y)),
                    f.sin(Times(t - 1, x)), f.cos(Times(t - 1, x)), f.sinh(Times(t - 1, y)), f.cosh(Times(t - 1, y)),
                    f.sin(u), f.cos(u), f.sinh(v), f.cosh(v), f.sin(x), f.cos(x), f.sinh(y), f.cosh(y));
  }

  // The recurrence on the values it speaks of: those at the next, the previous and the present
  // multiple of the argument, and at the argument itself.
  lemma {:induction false} RecurrenceForms(sp: real, cp: real, shp: real, chp: real, sm: real, cm: real, shm: real,
                                           chm: real,
                        s: real, c: real, sh: real, ch: real, s1: real, c1: real, sh1: real, ch1: real)
    requires sp == s * c1 + c * s1 && sm == s * c1 - c * s1
    requires cp == c * c1 - s * s1 && cm == c * c1 + s * s1
    requires shp == sh * ch1 + ch * sh1 && shm == sh * ch1 - ch * sh1
    requires chp == ch * ch1 + sh * sh1 && chm == ch * ch1 - sh * sh1
    ensures Complex(sp * chp, cp * shp)
            == Minus(Mul(Complex(2.0 * c1 * ch1, -2.0 * s1 * sh1), Complex(s * ch, c * sh)),
                     Complex(sm * chm, cm * shm))
  {
    ProductForms(s, c, sh, ch, s1, c1, sh1, ch1);
    SameProduct(sp, chp, s * c1 + c * s1, ch * ch1 + sh * sh1);
    SameProduct(sm, chm, s * c1 - c * s1, ch * ch1 - sh * sh1);
    SameProduct(cp, shp, c * c1 - s * s1, sh * ch1 + ch * sh1);
    SameProduct(cm, shm, c * c1 + s * s1, sh * ch1 - ch * sh1);
  }

  lemma {:induction false} SameProduct(a: real, b: real, a': real, b': real)
    requires a == a' && b == b'
    ensures a * b == a' * b'
  {
  }

  lemma {:induction false} ProductForms(s: real, c: real, sh: real, ch: real, s1: real, c1: real, sh1: real, ch1: real)
    ensures (s * c1 + c * s1) * (ch * ch1 + sh * sh1) + (s * c1 - c * s1) * (ch * ch1 - sh * sh1)
            == (2.0 * c1 * ch1) * (s * ch) - (-2.0 * s1 * sh1) * (c * sh)
    ensures (c * c1 - s * s1) * (sh * ch1 + ch * sh1) + (c * c1 + s * s1) * (sh * ch1 - ch * sh1)
            == (2.0 * c1 * ch1) * (c * sh) + (-2.0 * s1 * sh1) * (s * ch)
  {
    PairOfProducts(s * c1, c * s1, ch * ch1, sh * sh1);
    Regroup(s, c1, ch, ch1);
    Regroup(c, s1, sh, sh1);
    PairOfProducts(c * c1, -(s * s1), sh * ch1, ch * sh1);
    Regroup(c, c1, sh, ch1);
    Regroup(s, s1, ch, sh1);
    Doubled(c1, ch1, s * ch);
    Doubled(s1, sh1, c * sh);
    Doubled(c1, ch1, c * sh);
    Doubled(s1, sh1, s * ch);
    assert -(s * s1) * (ch * sh1) == -((s * s1) * (ch * sh1));
  }

  lemma {:induction false} Doubled(a: real, b: real, w: real)
    ensures (2.0 * a * b) * w == 2.0 * ((a * b) * w)
    ensures (-2.0 * a * b) * w == -2.0 * ((a * b) * w)
  {
    assert 2.0 * a * b == 2.0 * (a * b) && -2.0 * a * b == -2.0 * (a * b);
  }

  lemma {:induction false} Distribute(u: Complex, v: Complex, w: Complex)
    ensures Mul(Plus(u, v), w) == Plus(Mul(u, w), Mul(v, w))
    ensures Mul(Minus(u, v), w) == Minus(Mul(u, w), Mul(v, w))
    ensures Mul(u, v) == Mul(v, u)
  {
  }

  lemma {:induction false} Associate(u: Complex, v: Complex, w: Complex)
    ensures Mul(Mul(u, v), w) == Mul(u, Mul(v, w))
  {
    var a, b, c, d, e, g := u.re, u.im, v.re, v.im, w.re, w.im;
    assert (a * c - b * d) * e == a * (c * e) - b * (d * e);
    assert (a * d + b * c) * g == a * (d * g) + b * (c * g);
    assert (a * c - b * d) * g == a * (c * g) - b * (d * g);
    assert (a * d + b * c) * e == a * (d * e) + b * (c * e);
    assert a * (c * e - d * g) == a * (c * e) - a * (d * g);
    assert b * (c * g + d * e) == b * (c * g) + b * (d * e);
    assert a * (c * g + d * e) == a * (c * g) + a * (d * e);
    assert b * (c * e - d * g) == b * (c * e) - b * (d * g);
  }

  lemma {:induction false} ComplexStep(a: real, c: Complex, h1: Complex, h2: Complex, next: Complex, here: Complex,
                                       before: Complex)
    requires next == Minus(Mul(c, here), before)
    ensures Minus(Mul(Minus(Plus(Complex(a, 0.0), Mul(c, h1)), h2), here), Mul(h1, before))
            == Plus(Scale(a, here), Minus(Mul(h1, next), Mul(h2, here)))
  {
    Distribute(Plus(Complex(a, 0.0), Mul(c, h1)), h2, here);
    Distribute(Complex(a, 0.0), Mul(c, h1), here);
    Distribute(Mul(c, here), before, h1);
    Distribute(h1, next, here);
    Distribute(h1, before, here);
    Distribute(h1, c, here);
    Distribute(Mul(c, here), h1, here);
    Associate(h1, c, here);
    assert Mul(Complex(a, 0.0), here) == Scale(a, here);
    assert Mul(h1, next) == Minus(Mul(h1, Mul(c, here)), Mul(h1, before));
  }

  ghost predicate ComplexRemains(f: Trig, a: seq<real>, n: nat, x: real, y: real, t: nat, h: Complex, h1: Complex)
    requires t <= n <= |a|
  {
    ComplexSineSum(f, a, n, x, y)
    == Plus(ComplexSineSum(f, a, t, x, y), Minus(Mul(h, SinAt(f, t + 1, x, y)), Mul(h1, SinAt(f, t, x, y))))
  }

  lemma {:induction false} ComplexRemainsStart(f: Trig, a: seq<real>, n: nat, x: real, y: real)
    requires n <= |a|
    ensures ComplexRemains(f, a, n, x, y, n, ZERO, ZERO)
  {
  }

  lemma {:induction false} ComplexRemainsStep(f: Trig, a: seq<real>, n: nat, x: real, y: real, t: nat, h: Complex,
                                              h1: Complex)
    requires 0 < t <= n <= |a| && Circular(f) && Hyperbolic(f) && ComplexRemains(f, a, n, x, y, t, h, h1)
    ensures ComplexRemains(f, a, n, x, y, t - 1, Minus(Plus(Complex(a[t - 1], 0.0), Mul(TwoCos(f, x, y), h)), h1), h)
  {
    hide Mul, SinAt, TwoCos;
    ComplexRecurrence(f, t, x, y);
    ComplexStep(a[t - 1], TwoCos(f, x, y), h, h1, SinAt(f, t + 1, x, y), SinAt(f, t, x, y), SinAt(f, t - 1, x, y));
  }

  lemma {:induction false} ComplexRemainsEnd(f: Trig, a: seq<real>, n: nat, x: real, y: real, h: Complex, h1: Complex)
    requires n <= |a| && Circular(f) && Hyperbolic(f) && ComplexRemains(f, a, n, x, y, 0, h, h1)
    ensures ComplexSineSum(f, a, n, x, y) == Mul(Complex(f.sin(x) * f.cosh(y), f.cos(x) * f.sinh(y)), h)
  {
    SinAtZeroAndOne(f, x, y);
    ZeroFactors(SinAt(f, 1, x, y), h, h1);
  }

  lemma {:induction false} ZeroFactors(s: Complex, h: Complex, h1: Complex)
    ensures Minus(Mul(h, s), Mul(h1, ZERO)) == Mul(s, h)
    ensures Mul(s, ZERO) == ZERO
  {
  }

  lemma {:induction false} InParts(a: real, r: real, i: real, hr1: real, hi1: real, hr2: real, hi2: real)
    ensures Minus(Plus(Complex(a, 0.0), Mul(Complex(r, i), Complex(hr1, hi1))), Complex(hr2, hi2))
            == Complex(a + r * hr1 - i * hi1 - hr2, i * hr1 + r * hi1 - hi2)
    ensures Mul(Complex(r, i), Complex(hr1, hi1)) == Complex(r * hr1 - i * hi1, r * hi1 + i * hr1)
    ensures Mul(Complex(r, i), ZERO) == ZERO
  {
  }

  method Clksin(f: Trig, ar: seq<real>, degree: int, argReal: real, argImag: real) returns (re: real, im: real)
    requires Circular(f) && Hyperbolic(f) && degree <= |ar|
    ensures Complex(re, im) == ComplexSineSum(f, ar, if degree < 0 then 0 else degree, argReal, argImag)
  {
    hide CircularAt, HyperbolicAt, SinAt, ComplexRemains, Mul, Plus, Minus;
    var sinArgR := f.sin(argReal);
    var cosArgR := f.cos(argReal);
    var sinhArgI := f.sinh(argImag);
    var coshArgI := f.cosh(argImag);
    var r := 2.0 * cosArgR * coshArgI;
    var i := -2.0 * sinArgR * sinhArgI;
    var hr1, hr, hi1, hi := 0.0, 0.0, 0.0, 0.0;
    var hr2, hi2;
    var t := degree;
    ghost var top := if degree < 0 then 0 else degree;
    if degree >= 0 {
      ComplexRemainsStart(f, ar, top, argReal, argImag);
    }
    while t > 0
      invariant r == TwoCos(f, argReal, argImag).re && i == TwoCos(f, argReal, argImag).im
      invariant if degree < 0 then t == degree && hr == hi == 0.0 else 0 <= t <= degree
      invariant degree >= 0 ==> ComplexRemains(f, ar, top, argReal, argImag, t, Complex(hr, hi), Complex(hr1, hi1))
    {
      ComplexRemainsStep(f, ar, top, argReal, argImag, t, Complex(hr, hi), Complex(hr1, hi1));
      hr2 := hr1;
      hr1 := hr;
      hi2 := hi1;
      hi1 := hi;
      var z := ar[t - 1] + r * hr1 - i * hi - hr2;
      hi := i * hr1 + r * hi1 - hi2;
      hr := z;
      InParts(ar[t - 1], r, i, hr1, hi1, hr2, hi2);
      t := t - 1;
    }
    r := sinArgR * coshArgI;
    i := cosArgR * sinhArgI;
    re := r * hr - i * hi;
    im := r * hi + i * hr;
    InParts(0.0, r, i, hr, hi, 0.0, 0.0);
    SameProduct(sinArgR, coshArgI, f.sin(argReal), f.cosh(argImag));
    SameProduct(cosArgR, sinhArgI, f.cos(argReal), f.sinh(argImag));
    if degree >= 0 {
      ComplexRemainsEnd(f, ar, top, argReal, argImag, Complex(hr, hi), Complex(hr1, hi1));
      assert Complex(r, i) == Complex(f.sin(argReal) * f.cosh(argImag), f.cos(argReal) * f.sinh(argImag));
    } else {
      assert Complex(hr, hi) == ZERO && ComplexSineSum(f, ar, top, argReal, argImag) == ZERO;
    }
  }

  lemma {:induction false} SinAtZeroAndOne(f: Trig, x: real, y: real)
    requires Circular(f) && Hyperbolic(f)
    ensures SinAt(f, 0, x, y) == ZERO
    ensures SinAt(f, 1, x, y) == Complex(f.sin(x) * f.cosh(y), f.cos(x) * f.sinh(y))
  {
    SineOfZero(f, x);
    assert Times(0, y) == 0.0 && Times(1, x) == x && Times(1, y) == y;
    assert HyperbolicAt(f, 0.0, 0.0);
  }

  // The two sums agree on the real axis.
  lemma {:induction false} RealAxis(f: Trig, a: seq<real>, n: nat, x: real)
    requires n <= |a| && Hyperbolic(f) && f.cosh(0.0) == 1.0
    ensures ComplexSineSum(f, a, n, x, 0.0) == Complex(SineSum(f, a, n, x), 0.0)
  {
    if n > 0 {
      RealAxis(f, a, n - 1, x);
      assert Times(n, 0.0) == 0.0;
      assert HyperbolicAt(f, 0.0, 0.0);
    }
  }
}
