/**
 * The "System Characteristics" panel of app/app.py: for m·x'' + c·x' + k·x = 0 it
 * computes p = -c/m, q = k/m, the discriminant delta, a damping regime and the two
 * characteristic roots. Numbers are exact reals; Python's square root is a parameter.
 */
module Stability {

  import opened DamperInput
  import opened RealFacts

  /** Absolute tolerance of np.isclose; its relative term rtol·|0| vanishes against 0. */
  const IsCloseAtol: real := 0.00000001

  /** The six labels of the classifier's if/elif chain, in source order. */
  datatype Regime = NoDamping | Underdamped | CriticalDamping | Overdamped | Unstable | Other

  /** A complex number: `delta ** 0.5` is complex in Python when delta < 0. */
  datatype Complex = Complex(re: real, im: real)

  /** Everything the panel displays: p, q, delta, both roots and the regime. */
  datatype SystemProperties = SystemProperties(
    p: real, q: real, delta: real, lambda1: Complex, lambda2: Complex, regime: Regime)

  /** `sqrt` is a square root on the non-negative reals (Python's `** 0.5`). */
  ghost predicate IsSqrt(sqrt: real -> real) {
    forall x :: 0.0 <= x ==> 0.0 <= sqrt(x) && sqrt(x) * sqrt(x) == x
  }

  function Abs(x: real): real {
    if x < 0.0 then -x else x
  }

  function CAdd(a: Complex, b: Complex): Complex {
    Complex(a.re + b.re, a.im + b.im)
  }

  function CMul(a: Complex, b: Complex): Complex {
    Complex(a.re * b.re - a.im * b.im, a.re * b.im + a.im * b.re)
  }

  function CScale(r: real, a: Complex): Complex {
    Complex(r * a.re, r * a.im)
  }

  /** The characteristic polynomial m·z² + c·z + k evaluated at z. */
  function CharPoly(m: real, c: real, k: real, z: Complex): Complex {
    CAdd(CAdd(CScale(m, CMul(z, z)), CScale(c, z)), Complex(k, 0.0))
  }

  /** np.isclose(c, 0): |c - 0| <= atol + rtol·|0|. */
  predicate IsClose(c: real): (b: bool)
    ensures b <==> -IsCloseAtol <= c <= IsCloseAtol
  {
    Abs(c) <= IsCloseAtol
  }

  function P(c: real, m: real): (p: real)
    requires m != 0.0
    ensures p * m == -c
  {
    -c / m
  }

  function Q(k: real, m: real): (q: real)
    requires m != 0.0
    ensures q * m == k
  {
    k / m
  }

  /** delta = (c/m)² - 4k/m, which is the discriminant p² - 4q of λ² - p·λ + q. */
  function Delta(c: real, m: real, k: real): (d: real)
    requires m != 0.0
    ensures d == P(c, m) * P(c, m) - 4.0 * Q(k, m)
    ensures d * (m * m) == c * c - 4.0 * k * m
  {
    var r := c / m;
    assert c == r * m;
    (c / m) * (c / m) - 4.0 * k / m
  }

  /**
   * The if/elif chain choosing the label. For real delta one of the three sign
   * tests always succeeds, so "Unstable" and "Other" are never chosen.
   */
  function Classify(c: real, m: real, k: real): (r: Regime)
    requires m != 0.0
    ensures IsClose(c) ==> r == NoDamping
    ensures !IsClose(c) ==> (r == Underdamped <==> Delta(c, m, k) < 0.0)
    ensures !IsClose(c) ==> (r == CriticalDamping <==> Delta(c, m, k) == 0.0)
    ensures !IsClose(c) ==> (r == Overdamped <==> Delta(c, m, k) > 0.0)
    ensures r != Unstable && r != Other
  {
    var p := P(c, m);
    var delta := Delta(c, m, k);
    if IsClose(c) then NoDamping
    else if delta < 0.0 then Underdamped
    else if delta == 0.0 then CriticalDamping
    else if delta > 0.0 then Overdamped
    else if p >= 0.0 then Unstable
    else Other
  }

  /**
   * λ¹ = (p + delta^0.5)/2 and λ² = (p - delta^0.5)/2. For delta < 0 the principal
   * square root is i·√(-delta), so the roots are the pair p/2 ± i·√(-delta)/2.
   */
  function Roots(c: real, m: real, k: real, sqrt: real -> real): (r: (Complex, Complex))
    requires m != 0.0
    ensures Delta(c, m, k) >= 0.0 ==> r.0.im == 0.0 && r.1.im == 0.0
    ensures Delta(c, m, k) < 0.0 ==> r.0.re == r.1.re == P(c, m) / 2.0 && r.1.im == -r.0.im
  {
    var p := P(c, m);
    var delta := Delta(c, m, k);
    if delta >= 0.0 then
      (Complex((p + sqrt(delta)) / 2.0, 0.0), Complex((p - sqrt(delta)) / 2.0, 0.0))
    else
      (Complex(p / 2.0, sqrt(-delta) / 2.0), Complex(p / 2.0, -sqrt(-delta) / 2.0))
  }

  /**
   * log_system_properties(c, m, k) without its sidebar output. Python raises
   * ZeroDivisionError on its first line when m == 0.
   */
  function LogSystemProperties(c: real, m: real, k: real, sqrt: real -> real)
    : (r: Outcome<SystemProperties>)
    requires IsSqrt(sqrt)
    ensures r.ZeroDivisionError? <==> m == 0.0
    ensures r.Ok? ==> r.value.delta == r.value.p * r.value.p - 4.0 * r.value.q
    ensures r.Ok? ==> r.value.p == P(c, m) && r.value.q == Q(k, m)
    ensures r.Ok? ==> CAdd(r.value.lambda1, r.value.lambda2) == Complex(r.value.p, 0.0)
    ensures r.Ok? ==> CMul(r.value.lambda1, r.value.lambda2) == Complex(r.value.q, 0.0)
    ensures r.Ok? ==> CharPoly(m, c, k, r.value.lambda1) == Complex(0.0, 0.0)
    ensures r.Ok? ==> CharPoly(m, c, k, r.value.lambda2) == Complex(0.0, 0.0)
    ensures r.Ok? && IsClose(c) ==> r.value.regime == NoDamping
    ensures r.Ok? && !IsClose(c) ==> (r.value.regime == Underdamped <==> r.value.delta < 0.0)
    ensures r.Ok? && !IsClose(c) ==> (r.value.regime == CriticalDamping <==> r.value.delta == 0.0)
    ensures r.Ok? && !IsClose(c) ==> (r.value.regime == Overdamped <==> r.value.delta > 0.0)
    ensures r.Ok? ==> (r.value.lambda1, r.value.lambda2) == Roots(c, m, k, sqrt)
    ensures r.Ok? && r.value.delta >= 0.0 ==> r.value.lambda1.re >= r.value.lambda2.re
    ensures r.Ok? && r.value.delta < 0.0 ==> r.value.lambda1.im > 0.0
  {
    if m == 0.0 then ZeroDivisionError
    else
      var roots := Roots(c, m, k, sqrt);
      RootsVieta(c, m, k, sqrt);
      RootsOrder(c, m, k, sqrt);
      RootsSolveCharacteristicEquation(c, m, k, sqrt);
      Ok(SystemProperties(P(c, m), Q(k, m), Delta(c, m, k), roots.0, roots.1, Classify(c, m, k)))
  }

  /** Both roots, real or complex, have sum p and product q. */
  lemma RootsVieta(c: real, m: real, k: real, sqrt: real -> real)
    requires m != 0.0
    requires IsSqrt(sqrt)
    ensures CAdd(Roots(c, m, k, sqrt).0, Roots(c, m, k, sqrt).1) == Complex(P(c, m), 0.0)
    ensures CMul(Roots(c, m, k, sqrt).0, Roots(c, m, k, sqrt).1) == Complex(Q(k, m), 0.0)
  {
  }

  /** A z with z² = p·z - q is a zero of m·z² + c·z + k, because c = -m·p and k = m·q. */
  lemma RootOfMonicIsRoot(c: real, m: real, k: real, z: Complex)
    requires m != 0.0
    requires CMul(z, z) == CAdd(CScale(P(c, m), z), Complex(-Q(k, m), 0.0))
    ensures CharPoly(m, c, k, z) == Complex(0.0, 0.0)
  {
    var p, q := P(c, m), Q(k, m);
    assert c == -m * p;
    assert k == m * q;
    var zz := CMul(z, z);
    assert m * zz.re == m * (p * z.re - q);
    assert m * zz.im == m * (p * z.im);
  }

  /** Each root solves the characteristic equation m·λ² + c·λ + k = 0. */
  lemma RootsSolveCharacteristicEquation(c: real, m: real, k: real, sqrt: real -> real)
    requires m != 0.0
    requires IsSqrt(sqrt)
    ensures CharPoly(m, c, k, Roots(c, m, k, sqrt).0) == Complex(0.0, 0.0)
    ensures CharPoly(m, c, k, Roots(c, m, k, sqrt).1) == Complex(0.0, 0.0)
  {
    var p, q := P(c, m), Q(k, m);
    var roots := Roots(c, m, k, sqrt);
    var l1, l2 := roots.0, roots.1;
    RootsVieta(c, m, k, sqrt);
    // z² - (l1 + l2)·z + l1·l2 = (z - l1)(z - l2) vanishes at l1 and at l2
    assert CMul(l1, l1) == CAdd(CScale(p, l1), Complex(-q, 0.0)) by {
      assert l1.re * l1.re - l1.im * l1.im == (l1.re + l2.re) * l1.re - (l1.im + l2.im) * l1.im
        - (l1.re * l2.re - l1.im * l2.im);
      assert l1.re * l1.im + l1.im * l1.re == (l1.re + l2.re) * l1.im + (l1.im + l2.im) * l1.re
        - (l1.re * l2.im + l1.im * l2.re);
    }
    assert CMul(l2, l2) == CAdd(CScale(p, l2), Complex(-q, 0.0)) by {
      assert l2.re * l2.re - l2.im * l2.im == (l1.re + l2.re) * l2.re - (l1.im + l2.im) * l2.im
        - (l1.re * l2.re - l1.im * l2.im);
      assert l2.re * l2.im + l2.im * l2.re == (l1.re + l2.re) * l2.im + (l1.im + l2.im) * l2.re
        - (l1.re * l2.im + l1.im * l2.re);
    }
    RootOfMonicIsRoot(c, m, k, l1);
    RootOfMonicIsRoot(c, m, k, l2);
  }

  /** With delta >= 0 both roots are real and λ¹ >= λ², with equality exactly when delta == 0. */
  lemma RealRootsOrdered(c: real, m: real, k: real, sqrt: real -> real)
    requires m != 0.0
    requires IsSqrt(sqrt)
    requires Delta(c, m, k) >= 0.0
    ensures Roots(c, m, k, sqrt).0.im == 0.0 && Roots(c, m, k, sqrt).1.im == 0.0
    ensures Roots(c, m, k, sqrt).0.re >= Roots(c, m, k, sqrt).1.re
    ensures Roots(c, m, k, sqrt).0.re == Roots(c, m, k, sqrt).1.re <==> Delta(c, m, k) == 0.0
  {
    var s := sqrt(Delta(c, m, k));
    assert 0.0 <= s && s * s == Delta(c, m, k);
    if Delta(c, m, k) == 0.0 {
      SquareZero(s);
    }
  }

  /**
   * The order of the displayed roots: the `+` root comes first, so for real roots
   * λ¹ >= λ², and for complex roots λ¹ lies in the upper half-plane.
   */
  lemma RootsOrder(c: real, m: real, k: real, sqrt: real -> real)
    requires m != 0.0
    requires IsSqrt(sqrt)
    ensures Delta(c, m, k) >= 0.0 ==> Roots(c, m, k, sqrt).0.re >= Roots(c, m, k, sqrt).1.re
    ensures Delta(c, m, k) < 0.0 ==> Roots(c, m, k, sqrt).0.im > 0.0
  {
    if Delta(c, m, k) >= 0.0 {
      RealRootsOrdered(c, m, k, sqrt);
    } else {
      var s := sqrt(-Delta(c, m, k));
      assert 0.0 <= s && s * s == -Delta(c, m, k);
    }
  }

  lemma SquareLessMonotone(s: real, t: real)
    requires 0.0 <= s && 0.0 < t && s * s < t * t
    ensures s < t
  {
  }

  /** Critical damping: the double root λ¹ = λ² = -c/(2m). */
  lemma CriticalDoubleRoot(c: real, m: real, k: real, sqrt: real -> real)
    requires m != 0.0
    requires IsSqrt(sqrt)
    requires Classify(c, m, k) == CriticalDamping
    ensures Roots(c, m, k, sqrt).0 == Roots(c, m, k, sqrt).1 == Complex(-c / (2.0 * m), 0.0)
  {
    var s := sqrt(Delta(c, m, k));
    SquareZero(s);
    assert P(c, m) / 2.0 == -c / (2.0 * m);
  }

  /** With m, c, k > 0 an overdamped system has two strictly negative real roots. */
  lemma OverdampedRootsNegative(c: real, m: real, k: real, sqrt: real -> real)
    requires 0.0 < m && 0.0 < c && 0.0 < k
    requires IsSqrt(sqrt)
    requires Classify(c, m, k) == Overdamped
    ensures Roots(c, m, k, sqrt).0.im == 0.0 && Roots(c, m, k, sqrt).1.im == 0.0
    ensures Roots(c, m, k, sqrt).1.re <= Roots(c, m, k, sqrt).0.re < 0.0
  {
    var p, q, delta := P(c, m), Q(k, m), Delta(c, m, k);
    var s := sqrt(delta);
    assert 0.0 <= s && s * s == delta;
    assert p < 0.0 && q > 0.0;
    assert s * s < p * p;
    SquareLessMonotone(s, -p);
    RealRootsOrdered(c, m, k, sqrt);
  }

  /** With m > 0 and c > 0 an underdamped system spirals inwards: Re λ < 0 for both roots. */
  lemma UnderdampedSpiralStable(c: real, m: real, k: real, sqrt: real -> real)
    requires 0.0 < m && 0.0 < c
    requires IsSqrt(sqrt)
    requires Classify(c, m, k) == Underdamped
    ensures Roots(c, m, k, sqrt).0.re < 0.0 && Roots(c, m, k, sqrt).1.re < 0.0
    ensures Roots(c, m, k, sqrt).0.im > 0.0 && Roots(c, m, k, sqrt).1 == Complex(Roots(c, m, k, sqrt).0.re, -Roots(c, m, k, sqrt).0.im)
  {
  }

  /** Without damping and with m, k > 0 the roots are ±i·√(k/m): a centre. */
  lemma UndampedCentre(m: real, k: real, sqrt: real -> real)
    requires 0.0 < m && 0.0 < k
    requires IsSqrt(sqrt)
    ensures Classify(0.0, m, k) == NoDamping
    ensures Roots(0.0, m, k, sqrt).0.re == 0.0 && Roots(0.0, m, k, sqrt).1.re == 0.0
    ensures Roots(0.0, m, k, sqrt).0.im * Roots(0.0, m, k, sqrt).0.im == k / m
    ensures Roots(0.0, m, k, sqrt).0.im > 0.0
    ensures Roots(0.0, m, k, sqrt).1 == Complex(0.0, -Roots(0.0, m, k, sqrt).0.im)
  {
  }

  /** The damping test comes first: |c| <= 1e-8 gives "No damping" even where delta > 0. */
  lemma NoDampingWhateverDelta()
    ensures Delta(0.000000001, 0.0000000001, 0.0) > 0.0
    ensures Classify(0.000000001, 0.0000000001, 0.0) == NoDamping
  {
  }

  /** m = k = c = 1 (the default parameters): delta = -3, underdamped. */
  lemma DefaultParametersUnderdamped()
    ensures Delta(1.0, 1.0, 1.0) == -3.0
    ensures Classify(1.0, 1.0, 1.0) == Underdamped
  {
  }

  /** m = k = 1, c = 2: delta = 0, critically damped with the double root -1. */
  lemma CriticalExample(sqrt: real -> real)
    requires IsSqrt(sqrt)
    ensures Delta(2.0, 1.0, 1.0) == 0.0
    ensures Classify(2.0, 1.0, 1.0) == CriticalDamping
    ensures Roots(2.0, 1.0, 1.0, sqrt).0 == Roots(2.0, 1.0, 1.0, sqrt).1 == Complex(-1.0, 0.0)
  {
    CriticalDoubleRoot(2.0, 1.0, 1.0, sqrt);
  }
}
