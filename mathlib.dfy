/** The floating-point routines the picker calls (`math.sqrt`, `math.atan2`,
    `math.cos`, `math.sin`, `colorsys.hsv_to_rgb`, `colorsys.rgb_to_hsv`),
    kept abstract: the model
    receives them as a record of functions and relies only on the facts
    that `Lawful` states about them. */
module MathLib {

  /** `math.pi`, written to the sixteen significant digits Python prints. */
  const PI: real := 3.141592653589793

  /** A colour with channels that are reals (the outputs of `hsv_to_rgb`). */
  datatype Rgb01 = Rgb01(r: real, g: real, b: real)

  /** A colour in hue, saturation, value coordinates. */
  datatype Hsv = Hsv(h: real, s: real, v: real)

  datatype Routines = Routines(
    sqrt: real -> real,
    atan2: (real, real) -> real,
    cos: real -> real,
    sin: real -> real,
    hsvToRgb: (real, real, real) -> Rgb01,
    rgbToHsv: (real, real, real) -> Hsv)

  predicate Unit(x: real)
  {
    0.0 <= x <= 1.0
  }

  function Max3(a: real, b: real, c: real): real
  {
    if a >= b && a >= c then a else if b >= c then b else c
  }

  /** The square root of a non-negative number; that of zero is zero. */
  ghost predicate SqrtLaw(sqrt: real -> real)
  {
    (forall x :: 0.0 <= x ==> 0.0 <= sqrt(x) && sqrt(x) * sqrt(x) == x) &&
    sqrt(0.0) == 0.0
  }

  /** `atan2(y, x)` lies in [-pi, pi]; on the x-axis it is 0 on the positive
      side and pi on the negative side (the C99 conventions Python follows
      for a zero `y` of positive sign). */
  ghost predicate Atan2Law(atan2: (real, real) -> real)
  {
    (forall y, x :: -PI <= atan2(y, x) <= PI) &&
    (forall x :: 0.0 < x ==> atan2(0.0, x) == 0.0) &&
    (forall x :: x < 0.0 ==> atan2(0.0, x) == PI)
  }

  /** Cosine and sine of one angle are the coordinates of a point on the
      unit circle. */
  ghost predicate CosSinLaw(cos: real -> real, sin: real -> real)
  {
    forall a :: cos(a) * cos(a) + sin(a) * sin(a) == 1.0
  }

  /** `hsv_to_rgb` on arguments in [0,1]: every channel lies between 0 and
      the value, and with no saturation every channel is the value. */
  ghost predicate HsvToRgbLaw(hsvToRgb: (real, real, real) -> Rgb01)
  {
    forall h, s, v :: Unit(h) && Unit(s) && Unit(v) ==>
      var c := hsvToRgb(h, s, v);
      0.0 <= c.r <= v && 0.0 <= c.g <= v && 0.0 <= c.b <= v &&
      (s == 0.0 ==> c == Rgb01(v, v, v))
  }

  /** `rgb_to_hsv` on channels in [0,1]: hue in [0,1), saturation in [0,1],
      value the largest channel, and a grey has hue and saturation zero. */
  ghost predicate RgbToHsvLaw(rgbToHsv: (real, real, real) -> Hsv)
  {
    forall r, g, b :: Unit(r) && Unit(g) && Unit(b) ==>
      var c := rgbToHsv(r, g, b);
      0.0 <= c.h < 1.0 && Unit(c.s) && c.v == Max3(r, g, b) &&
      (r == g == b ==> c.h == 0.0 && c.s == 0.0)
  }

  ghost predicate Lawful(m: Routines)
  {
    SqrtLaw(m.sqrt) && Atan2Law(m.atan2) && CosSinLaw(m.cos, m.sin) &&
    HsvToRgbLaw(m.hsvToRgb) && RgbToHsvLaw(m.rgbToHsv)
  }

  /** A square root no greater than a bound is exactly a square no greater
      than the bound's square: the membership test `dist <= RADIUS` agrees
      with the integer test `dx*dx + dy*dy <= RADIUS*RADIUS`. */
  lemma SqrtAtMost(m: Routines, x: real, bound: real)
    requires Lawful(m) && 0.0 <= x && 0.0 <= bound
    ensures m.sqrt(x) <= bound <==> x <= bound * bound
  {
    var r := m.sqrt(x);
    assert 0.0 <= r && r * r == x;
    if r <= bound {
      MulMonotone(r, bound, r);
      MulMonotone(r, bound, bound);
    } else {
      StrictSquare(bound, r);
    }
  }

  lemma MulMonotone(a: real, b: real, k: real)
    requires a <= b && 0.0 <= k
    ensures a * k <= b * k
  {
  }

  lemma StrictSquare(a: real, b: real)
    requires 0.0 <= a < b
    ensures a * a < b * b
  {
    var lo, mid, hi := a * a, a * b, b * b;
    assert lo <= mid;
    assert mid < hi;
  }

  lemma MulStrict(a: real, b: real, k: real)
    requires a < b && 0.0 < k
    ensures a * k < b * k
  {
  }
}
