/** The curve library: Robert Penner's easing equations F(t, b, c, d), where t is the
    current time, b the begin value, c the change (target minus begin) and d the
    duration, together with the dispatcher from an EasingType to its equation.
    Time and values are reals; float rounding is not modelled. */
module EasingFunctions {
  import opened EasingTypes

  /** A curve the library can hand out: one of the ten implemented kinds. */
  type EasingFunction = kind: EasingType | Implemented(kind) witness EasingType.Linear

  /** The transcendental primitives the elastic equations call: Mathf.Pow(2, x),
      Mathf.Sin and Mathf.PI. They are supplied by the caller, not defined here. */
  datatype MathLib = MathLib(pow2: real -> real, sin: real -> real, pi: real)

  /** Mathf.Epsilon, the smallest positive single-precision value, 2^-149. */
  const Epsilon: real := 1.0 / 713623846352979940529142984724747568191373312.0

  lemma EpsilonPositive()
    ensures 0.0 < Epsilon < 1.0
  {
  }

  function Abs(x: real): real {
    if x < 0.0 then -x else x
  }

  /** Progress measured in half-durations, as the InOut equations measure it. */
  lemma HalfProgress(t: real, d: real)
    requires d != 0.0
    ensures t / (d / 2.0) == 2.0 * (t / d)
    ensures t == 0.0 ==> t / (d / 2.0) == 0.0
    ensures t == d / 2.0 ==> t / (d / 2.0) == 1.0
    ensures t == d ==> t / (d / 2.0) == 2.0
  {
  }

  // ---------------------------------------------------------------------------
  // The polynomial equations. Each divides by d, so d = 0 is outside the domain.

  function Linear(t: real, b: real, c: real, d: real): real
    requires d != 0.0
  {
    c * t / d + b
  }

  function InCubic(t: real, b: real, c: real, d: real): real
    requires d != 0.0
  {
    var p := t / d;
    c * p * p * p + b
  }

  function OutCubic(t: real, b: real, c: real, d: real): real
    requires d != 0.0
  {
    var p := t / d - 1.0;
    c * (p * p * p + 1.0) + b
  }

  function InOutCubic(t: real, b: real, c: real, d: real): real
    requires d != 0.0
  {
    var p := t / (d / 2.0);
    if p < 1.0 then
      c / 2.0 * p * p * p + b
    else
      var q := p - 2.0;
      c / 2.0 * (q * q * q + 2.0) + b
  }

  function InQuad(t: real, b: real, c: real, d: real): real
    requires d != 0.0
  {
    var p := t / d;
    c * p * p + b
  }

  function OutQuad(t: real, b: real, c: real, d: real): real
    requires d != 0.0
  {
    var p := t / d;
    -c * p * (p - 2.0) + b
  }

  function InOutQuad(t: real, b: real, c: real, d: real): real
    requires d != 0.0
  {
    var p := t / (d / 2.0);
    if p < 1.0 then
      c / 2.0 * p * p + b
    else
      var q := p - 1.0;
      -c / 2.0 * (q * (q - 2.0) - 1.0) + b
  }

  // ---------------------------------------------------------------------------
  // The elastic equations. Their oscillating tails go through the caller's MathLib;
  // what is fixed here is the guard that returns exactly b + c at the end point.

  function OutElastic(m: MathLib, t: real, b: real, c: real, d: real): real
    requires d != 0.0
  {
    var p0 := t / d;
    if Abs(p0 - 1.0) < Epsilon then
      b + c
    else
      var p := d * 0.3;
      var s := p / 4.0;
      c * m.pow2(-10.0 * p0) * m.sin((p0 * d - s) * (2.0 * m.pi) / p) + c + b
  }

  function InElastic(m: MathLib, t: real, b: real, c: real, d: real): real
    requires d != 0.0
  {
    var p0 := t / d;
    if Abs(p0 - 1.0) < Epsilon then
      b + c
    else
      var p := d * 0.3;
      var s := p / 4.0;
      var q := p0 - 1.0;
      -(c * m.pow2(10.0 * q) * m.sin((q * d - s) * (2.0 * m.pi) / p)) + b
  }

  function InOutElastic(m: MathLib, t: real, b: real, c: real, d: real): real
    requires d != 0.0
  {
    var p0 := t / (d / 2.0);
    if Abs(p0 - 2.0) < Epsilon then
      b + c
    else
      var p := d * (0.3 * 1.5);
      var s := p / 4.0;
      var q := p0 - 1.0;
      if p0 < 1.0 then
        -0.5 * (c * m.pow2(10.0 * q) * m.sin((q * d - s) * (2.0 * m.pi) / p)) + b
      else
        c * m.pow2(-10.0 * q) * m.sin((q * d - s) * (2.0 * m.pi) / p) * 0.5 + c + b
  }

  // ---------------------------------------------------------------------------
  // Dispatch.

  /** Resolves a requested kind to the curve the library hands out; every kind
      without an equation of its own falls back to Linear. */
  function Get(kind: EasingType): (f: EasingFunction)
    ensures f == kind <==> Implemented(kind)
    ensures !Implemented(kind) ==> f == EasingType.Linear
  {
    match kind
    case Linear => EasingType.Linear
    case InCubic => EasingType.InCubic
    case OutCubic => EasingType.OutCubic
    case InOutCubic => EasingType.InOutCubic
    case InQuad => EasingType.InQuad
    case OutQuad => EasingType.OutQuad
    case InOutQuad => EasingType.InOutQuad
    case OutElastic => EasingType.OutElastic
    case InElastic => EasingType.InElastic
    case InOutElastic => EasingType.InOutElastic
    case _ => EasingType.Linear
  }

  /** Invokes the curve f, the way `Easing<T>` invokes the delegate `Get` returned. */
  function Apply(m: MathLib, f: EasingFunction, t: real, b: real, c: real, d: real): real
    requires d != 0.0
  {
    match f
    case Linear => Linear(t, b, c, d)
    case InQuad => InQuad(t, b, c, d)
    case OutQuad => OutQuad(t, b, c, d)
    case InOutQuad => InOutQuad(t, b, c, d)
    case InCubic => InCubic(t, b, c, d)
    case OutCubic => OutCubic(t, b, c, d)
    case InOutCubic => InOutCubic(t, b, c, d)
    case InElastic => InElastic(m, t, b, c, d)
    case OutElastic => OutElastic(m, t, b, c, d)
    case InOutElastic => InOutElastic(m, t, b, c, d)
  }

  /** What a request for `kind` evaluates to, kind by kind over the whole enumeration:
      an independent statement of the dispatch table, fallbacks included. */
  function Requested(m: MathLib, kind: EasingType, t: real, b: real, c: real, d: real): real
    requires d != 0.0
  {
    match kind
    case Linear => Linear(t, b, c, d)
    case InQuad => InQuad(t, b, c, d)
    case OutQuad => OutQuad(t, b, c, d)
    case InOutQuad => InOutQuad(t, b, c, d)
    case InCubic => InCubic(t, b, c, d)
    case OutCubic => OutCubic(t, b, c, d)
    case InOutCubic => InOutCubic(t, b, c, d)
    case InQuart | OutQuart | InOutQuart => Linear(t, b, c, d)
    case InQuint | OutQuint | InOutQuint => Linear(t, b, c, d)
    case InSine | OutSine | InOutSine => Linear(t, b, c, d)
    case InExpo | OutExpo | InOutExpo => Linear(t, b, c, d)
    case InCirc | OutCirc | InOutCirc => Linear(t, b, c, d)
    case InElastic => InElastic(m, t, b, c, d)
    case OutElastic => OutElastic(m, t, b, c, d)
    case InOutElastic => InOutElastic(m, t, b, c, d)
    case InBack | OutBack | InOutBack => Linear(t, b, c, d)
    case InBounce | OutBounce | InOutBounce => Linear(t, b, c, d)
  }

  /** The Linear, Quad and Cubic families. */
  predicate Polynomial(f: EasingFunction) {
    !(f.InElastic? || f.OutElastic? || f.InOutElastic?)
  }

  // ---------------------------------------------------------------------------
  // Properties.

  /** Get's ensures restated as a table: for each of the 31 kinds, evaluating the curve
      Get hands out gives the equation `Requested` lists for that kind. */
  lemma GetDispatch(m: MathLib, kind: EasingType, t: real, b: real, c: real, d: real)
    requires d != 0.0
    ensures Apply(m, Get(kind), t, b, c, d) == Requested(m, kind, t, b, c, d)
  {
  }

  /** Every curve starts at b (the polynomial ones) and ends at exactly b + c (all ten). */
  lemma Endpoints(m: MathLib, f: EasingFunction, b: real, c: real, d: real)
    requires d != 0.0
    ensures Polynomial(f) ==> Apply(m, f, 0.0, b, c, d) == b
    ensures Apply(m, f, d, b, c, d) == b + c
  {
    match f
    case Linear => LinearEndpoints(b, c, d);
    case InQuad => InQuadEndpoints(b, c, d);
    case OutQuad => OutQuadEndpoints(b, c, d);
    case InOutQuad => InOutQuadPoints(b, c, d);
    case InCubic => InCubicEndpoints(b, c, d);
    case OutCubic => OutCubicEndpoints(b, c, d);
    case InOutCubic => InOutCubicPoints(b, c, d);
    case InElastic => InElasticEnd(m, b, c, d);
    case OutElastic => OutElasticEnd(m, b, c, d);
    case InOutElastic => InOutElasticEnd(m, b, c, d);
  }

  lemma LinearEndpoints(b: real, c: real, d: real)
    requires d != 0.0
    ensures Linear(0.0, b, c, d) == b && Linear(d, b, c, d) == b + c
  {
    assert c * d / d == c;
  }

  lemma InQuadEndpoints(b: real, c: real, d: real)
    requires d != 0.0
    ensures InQuad(0.0, b, c, d) == b && InQuad(d, b, c, d) == b + c
  {
    assert d / d == 1.0;
  }

  lemma OutQuadEndpoints(b: real, c: real, d: real)
    requires d != 0.0
    ensures OutQuad(0.0, b, c, d) == b && OutQuad(d, b, c, d) == b + c
  {
    assert d / d == 1.0;
  }

  lemma InCubicEndpoints(b: real, c: real, d: real)
    requires d != 0.0
    ensures InCubic(0.0, b, c, d) == b && InCubic(d, b, c, d) == b + c
  {
    assert d / d == 1.0;
  }

  lemma OutCubicEndpoints(b: real, c: real, d: real)
    requires d != 0.0
    ensures OutCubic(0.0, b, c, d) == b && OutCubic(d, b, c, d) == b + c
  {
    assert d / d == 1.0;
  }

  /** InOutQuad starts at b, passes b + c/2 half way, and ends at b + c. */
  lemma InOutQuadPoints(b: real, c: real, d: real)
    requires d != 0.0
    ensures InOutQuad(0.0, b, c, d) == b
    ensures InOutQuad(d / 2.0, b, c, d) == b + c / 2.0
    ensures InOutQuad(d, b, c, d) == b + c
  {
    HalfProgress(0.0, d);
    HalfProgress(d / 2.0, d);
    HalfProgress(d, d);
  }

  /** InOutCubic starts at b, passes b + c/2 half way, and ends at b + c. */
  lemma InOutCubicPoints(b: real, c: real, d: real)
    requires d != 0.0
    ensures InOutCubic(0.0, b, c, d) == b
    ensures InOutCubic(d / 2.0, b, c, d) == b + c / 2.0
    ensures InOutCubic(d, b, c, d) == b + c
  {
    HalfProgress(0.0, d);
    HalfProgress(d / 2.0, d);
    HalfProgress(d, d);
  }

  lemma OutElasticEnd(m: MathLib, b: real, c: real, d: real)
    requires d != 0.0
    ensures OutElastic(m, d, b, c, d) == b + c
  {
    EpsilonPositive();
    assert d / d == 1.0;
  }

  lemma InElasticEnd(m: MathLib, b: real, c: real, d: real)
    requires d != 0.0
    ensures InElastic(m, d, b, c, d) == b + c
  {
    EpsilonPositive();
    assert d / d == 1.0;
  }

  lemma InOutElasticEnd(m: MathLib, b: real, c: real, d: real)
    requires d != 0.0
    ensures InOutElastic(m, d, b, c, d) == b + c
  {
    EpsilonPositive();
    HalfProgress(d, d);
  }

  /** The normalized curve: f evaluated at progress p with begin 0, change 1, duration 1. */
  function Unit(m: MathLib, f: EasingFunction, p: real): real {
    Apply(m, f, p, 0.0, 1.0, 1.0)
  }

  /** Each polynomial curve is its normalized shape, scaled by c and shifted by b. */
  lemma Normalization(m: MathLib, f: EasingFunction, t: real, b: real, c: real, d: real)
    requires d != 0.0 && Polynomial(f)
    ensures Apply(m, f, t, b, c, d) == c * Unit(m, f, t / d) + b
  {
    match f
    case Linear => LinearNormalization(t, b, c, d);
    case InQuad => InQuadNormalization(t, b, c, d);
    case OutQuad => OutQuadNormalization(t, b, c, d);
    case InOutQuad => InOutQuadNormalization(t, b, c, d);
    case InCubic => InCubicNormalization(t, b, c, d);
    case OutCubic => OutCubicNormalization(t, b, c, d);
    case InOutCubic => InOutCubicNormalization(t, b, c, d);
  }

  lemma LinearNormalization(t: real, b: real, c: real, d: real)
    requires d != 0.0
    ensures Linear(t, b, c, d) == c * Linear(t / d, 0.0, 1.0, 1.0) + b
  {
    assert c * t / d == c * (t / d);
  }

  lemma InQuadNormalization(t: real, b: real, c: real, d: real)
    requires d != 0.0
    ensures InQuad(t, b, c, d) == c * InQuad(t / d, 0.0, 1.0, 1.0) + b
  {
  }

  lemma OutQuadNormalization(t: real, b: real, c: real, d: real)
    requires d != 0.0
    ensures OutQuad(t, b, c, d) == c * OutQuad(t / d, 0.0, 1.0, 1.0) + b
  {
  }

  lemma InOutQuadNormalization(t: real, b: real, c: real, d: real)
    requires d != 0.0
    ensures InOutQuad(t, b, c, d) == c * InOutQuad(t / d, 0.0, 1.0, 1.0) + b
  {
    HalfProgress(t, d);
    HalfProgress(t / d, 1.0);
  }

  lemma InCubicNormalization(t: real, b: real, c: real, d: real)
    requires d != 0.0
    ensures InCubic(t, b, c, d) == c * InCubic(t / d, 0.0, 1.0, 1.0) + b
  {
  }

  lemma OutCubicNormalization(t: real, b: real, c: real, d: real)
    requires d != 0.0
    ensures OutCubic(t, b, c, d) == c * OutCubic(t / d, 0.0, 1.0, 1.0) + b
  {
  }

  lemma InOutCubicNormalization(t: real, b: real, c: real, d: real)
    requires d != 0.0
    ensures InOutCubic(t, b, c, d) == c * InOutCubic(t / d, 0.0, 1.0, 1.0) + b
  {
    HalfProgress(t, d);
    HalfProgress(t / d, 1.0);
  }

  lemma UnitProducts(p: real)
    requires 0.0 <= p <= 1.0
    ensures 0.0 <= p * p <= p
    ensures 0.0 <= p * p * p <= p * p
  {
  }

  /** For progress in [0, 1] the normalized polynomial shapes stay within [0, 1]. */
  lemma UnitRange(m: MathLib, f: EasingFunction, p: real)
    requires Polynomial(f) && 0.0 <= p <= 1.0
    ensures 0.0 <= Unit(m, f, p) <= 1.0
  {
    match f
    case Linear =>
    case InQuad => UnitProducts(p);
    case OutQuad => OutQuadUnitRange(p);
    case InOutQuad => InOutQuadUnitRange(p);
    case InCubic => UnitProducts(p);
    case OutCubic => OutCubicUnitRange(p);
    case InOutCubic => InOutCubicUnitRange(p);
  }

  lemma OutQuadUnitRange(p: real)
    requires 0.0 <= p <= 1.0
    ensures 0.0 <= OutQuad(p, 0.0, 1.0, 1.0) <= 1.0
  {
    var x := 1.0 - p;
    UnitProducts(x);
    assert OutQuad(p, 0.0, 1.0, 1.0) == 1.0 - x * x;
  }

  lemma InOutQuadUnitRange(p: real)
    requires 0.0 <= p <= 1.0
    ensures 0.0 <= InOutQuad(p, 0.0, 1.0, 1.0) <= 1.0
  {
    HalfProgress(p, 1.0);
    var q := 2.0 * p;
    if q < 1.0 {
      UnitProducts(q);
      assert InOutQuad(p, 0.0, 1.0, 1.0) == q * q / 2.0;
    } else {
      var x := 2.0 - q;
      UnitProducts(x);
      assert InOutQuad(p, 0.0, 1.0, 1.0) == 1.0 - x * x / 2.0;
    }
  }

  lemma OutCubicUnitRange(p: real)
    requires 0.0 <= p <= 1.0
    ensures 0.0 <= OutCubic(p, 0.0, 1.0, 1.0) <= 1.0
  {
    var x := 1.0 - p;
    UnitProducts(x);
    assert OutCubic(p, 0.0, 1.0, 1.0) == 1.0 - x * x * x;
  }

  lemma InOutCubicUnitRange(p: real)
    requires 0.0 <= p <= 1.0
    ensures 0.0 <= InOutCubic(p, 0.0, 1.0, 1.0) <= 1.0
  {
    HalfProgress(p, 1.0);
    var q := 2.0 * p;
    if q < 1.0 {
      UnitProducts(q);
      assert InOutCubic(p, 0.0, 1.0, 1.0) == q * q * q / 2.0;
    } else {
      var x := 2.0 - q;
      UnitProducts(x);
      assert InOutCubic(p, 0.0, 1.0, 1.0) == 1.0 - x * x * x / 2.0;
    }
  }

  /** No overshoot: for a non-negative change and t within [0, d], every polynomial
      curve stays between its begin value and its end value. */
  lemma NoOvershoot(m: MathLib, f: EasingFunction, t: real, b: real, c: real, d: real)
    requires d != 0.0 && Polynomial(f)
    requires c >= 0.0 && 0.0 <= t <= d
    ensures b <= Apply(m, f, t, b, c, d) <= b + c
  {
    ProgressInUnit(t, d);
    var u := Unit(m, f, t / d);
    assert 0.0 <= u <= 1.0 by {
      UnitRange(m, f, t / d);
    }
    assert Apply(m, f, t, b, c, d) == c * u + b by {
      Normalization(m, f, t, b, c, d);
    }
    ScaleBounds(c, u);
  }

  lemma ProgressInUnit(t: real, d: real)
    requires d != 0.0 && 0.0 <= t <= d
    ensures 0.0 <= t / d <= 1.0
  {
    assert (t / d) * d == t;
  }

  lemma ScaleBounds(c: real, u: real)
    requires c >= 0.0 && 0.0 <= u <= 1.0
    ensures 0.0 <= c * u <= c
  {
  }

  /** The guard of the elastic curves: within Epsilon of the end, the result is exactly b + c. */
  lemma ElasticGuard(m: MathLib, f: EasingFunction, t: real, b: real, c: real, d: real)
    requires d != 0.0 && !Polynomial(f)
    requires (f.InOutElastic? && Abs(t / (d / 2.0) - 2.0) < Epsilon)
          || (!f.InOutElastic? && Abs(t / d - 1.0) < Epsilon)
    ensures Apply(m, f, t, b, c, d) == b + c
  {
  }
}
