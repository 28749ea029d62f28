/** The hue/saturation wheel: which canvas pixels `_draw_wheel` paints and
    with what colour, and how `handle_wheel` turns a clicked position into
    a hue, a saturation and an indicator position. */
module Wheel {
  import opened Numerals
  import opened MathLib
  import opened ColorText
  import opened Layout

  /** The integer form of the test `dist <= RADIUS`. */
  predicate InDisc(dx: int, dy: int)
  {
    dx * dx + dy * dy <= RADIUS * RADIUS
  }

  /** `(atan2(dy, dx) + pi) / (2 pi)`: the hue of a direction. */
  function Hue(angle: real): (h: real)
    ensures -PI <= angle <= PI ==> Unit(h)
    ensures angle == 0.0 ==> h == 0.5
    ensures h == 1.0 <==> angle == PI
  {
    (angle + PI) / (2.0 * PI)
  }

  lemma SquareBound(u: real, b: real)
    requires 0.0 <= b && u * u <= b * b
    ensures -b <= u <= b
  {
    if u > b {
      StrictSquare(b, u);
    } else if u < -b {
      StrictSquare(b, -u);
    }
  }

  lemma RealSquares(dx: int, dy: int)
    ensures (dx * dx + dy * dy) as real == dx as real * dx as real + dy as real * dy as real
    ensures (RADIUS * RADIUS) as real == RADIUS as real * RADIUS as real
  {
  }

  /** A disc offset moves at most RADIUS along either axis, so the whole
      disc lies inside the canvas: `_draw_wheel` paints all of it. */
  lemma DiscInsideCanvas(dx: int, dy: int)
    requires InDisc(dx, dy)
    ensures -RADIUS <= dx <= RADIUS && -RADIUS <= dy <= RADIUS
    ensures 0 <= CENTER + dx < SIZE && 0 <= CENTER + dy < SIZE
  {
    var x, y, r := dx as real, dy as real, RADIUS as real;
    RealSquares(dx, dy);
    assert x * x + y * y <= r * r;
    SquareBound(x, r);
    SquareBound(y, r);
  }

  /** The lower-case canvas fill of the full-value colour with hue `h` and
      saturation `s`: what `_draw_wheel` paints for one disc pixel. */
  function WheelFill(m: Routines, h: real, s: real): (f: string)
    requires Lawful(m) && Unit(h) && Unit(s)
    ensures |f| == 7 && f[0] == '#'
  {
    HexColor(Quantise(m.hsvToRgb(h, s, 1.0)), false)
  }

  /** The saturation of an offset inside the disc: its length over the radius. */
  function Saturation(o: Offset): (s: real)
    requires Measured(o) && o.dist <= RADIUS as real
    ensures Unit(s)
    ensures s == 0.0 <==> o.dist == 0.0
    ensures s == 1.0 <==> o.dist == RADIUS as real
  {
    Geometry();
    o.dist / RADIUS as real
  }

  /** The pixel the wheel canvas shows at column `x`, row `y`: inside the
      disc the fill of the pixel's hue and saturation, outside nothing. The
      wheel paints exactly the pixels of the disc. */
  function WheelPixel(m: Routines, x: int, y: int): (p: Option<string>)
    requires Lawful(m)
    ensures p.Some? <==> InDisc(x - CENTER, y - CENTER)
    ensures p.Some? ==> |p.value| == 7 && p.value[0] == '#'
  {
    var o := OffsetFromCentre(m, x, y);
    if o.dist <= RADIUS as real then
      Some(WheelFill(m, Hue(m.atan2(o.dy, o.dx)), Saturation(o)))
    else None
  }

  /** The first `n` pixels of canvas row `y`. */
  function WheelRow(m: Routines, y: int, n: nat): (row: seq<Option<string>>)
    requires Lawful(m)
    ensures |row| == n
  {
    if n == 0 then [] else WheelRow(m, y, n - 1) + [WheelPixel(m, n - 1, y)]
  }

  /** The first `n` canvas rows. */
  function WheelImage(m: Routines, n: nat): (image: seq<seq<Option<string>>>)
    requires Lawful(m)
    ensures |image| == n && forall y :: 0 <= y < n ==> |image[y]| == SIZE
  {
    if n == 0 then [] else WheelImage(m, n - 1) + [WheelRow(m, n - 1, SIZE)]
  }

  /** `image` is the wheel canvas as `_draw_wheel` leaves it, row by row. */
  ghost predicate ShowsWheel(image: seq<seq<Option<string>>>, m: Routines)
  {
    Lawful(m) && image == WheelImage(m, SIZE)
  }

  /** Pixel `x` of a partial row is the pixel at (`x`, `y`). */
  lemma {:induction false} WheelRowPixel(m: Routines, y: int, n: nat, x: int)
    requires Lawful(m) && 0 <= x < n
    ensures WheelRow(m, y, n)[x] == WheelPixel(m, x, y)
  {
    if x < n - 1 {
      WheelRowPixel(m, y, n - 1, x);
    }
  }

  /** Row `y` of a partial image is canvas row `y`. */
  lemma {:induction false} WheelImageRow(m: Routines, n: nat, y: int)
    requires Lawful(m) && 0 <= y < n
    ensures WheelImage(m, n)[y] == WheelRow(m, y, SIZE)
  {
    if y < n - 1 {
      WheelImageRow(m, n - 1, y);
    }
  }

  /** The drawn canvas is SIZE by SIZE and holds at (`x`, `y`) the pixel
      `WheelPixel` describes. */
  lemma WheelAt(image: seq<seq<Option<string>>>, m: Routines, x: int, y: int)
    requires ShowsWheel(image, m) && 0 <= x < SIZE && 0 <= y < SIZE
    ensures |image| == SIZE && |image[y]| == SIZE && image[y][x] == WheelPixel(m, x, y)
  {
    WheelImageRow(m, SIZE, y);
    WheelRowPixel(m, y, SIZE, x);
  }

  /** `_draw_wheel`: the outer loop over the canvas rows. */
  method RenderWheel(m: Routines) returns (image: seq<seq<Option<string>>>)
    requires Lawful(m)
    ensures ShowsWheel(image, m)
  {
    image := [];
    for y := 0 to SIZE
      invariant image == WheelImage(m, y)
    {
      var row := RenderWheelRow(m, y);
      image := image + [row];
    }
  }

  /** `_draw_wheel`: the inner loop, painting the disc pixels of row `y`. */
  method RenderWheelRow(m: Routines, y: int) returns (row: seq<Option<string>>)
    requires Lawful(m)
    ensures row == WheelRow(m, y, SIZE)
  {
    row := [];
    for x := 0 to SIZE
      invariant row == WheelRow(m, y, x)
    {
      var o := OffsetFromCentre(m, x, y);
      if o.dist <= RADIUS as real {
        var fill := WheelFill(m, Hue(m.atan2(o.dy, o.dx)), Saturation(o));
        row := row + [Some(fill)];
      } else {
        row := row + [None];
      }
    }
  }

  /** The wheel paints a pixel exactly when it is in the disc, and every
      disc offset has its pixel on the canvas. */
  lemma WheelCoversDisc(image: seq<seq<Option<string>>>, m: Routines, dx: int, dy: int)
    requires ShowsWheel(image, m) && InDisc(dx, dy)
    ensures 0 <= CENTER + dx < SIZE && 0 <= CENTER + dy < SIZE
    ensures image[CENTER + dy][CENTER + dx].Some?
  {
    DiscInsideCanvas(dx, dy);
    WheelAt(image, m, CENTER + dx, CENTER + dy);
  }

  /** A click offset from the centre with its length (`dist`). */
  datatype Offset = Offset(dx: real, dy: real, dist: real)

  /** `dist` is the Euclidean length of the offset. */
  predicate Measured(o: Offset)
  {
    0.0 <= o.dist && o.dist * o.dist == o.dx * o.dx + o.dy * o.dy
  }

  /** `c` points the same way as `o`: collinear with it and with the same
      sign on each axis. */
  predicate SameDirection(o: Offset, c: Offset)
  {
    c.dx * o.dy == c.dy * o.dx &&
    (c.dx < 0.0 <==> o.dx < 0.0) && (c.dx > 0.0 <==> o.dx > 0.0) &&
    (c.dy < 0.0 <==> o.dy < 0.0) && (c.dy > 0.0 <==> o.dy > 0.0)
  }

  /** The clamp of `handle_wheel`: an offset beyond the rim is scaled by
      `RADIUS / dist` onto the rim; one inside is kept. */
  function ClampToRim(o: Offset): (c: Offset)
    requires Measured(o)
    ensures Measured(c) && c.dist <= RADIUS as real
    ensures o.dist <= RADIUS as real ==> c == o
    ensures o.dist > RADIUS as real ==> c.dist == RADIUS as real && SameDirection(o, c)
  {
    if o.dist > RADIUS as real then
      var k := RADIUS as real / o.dist;
      ScaleOffset(o, k);
      Offset(o.dx * k, o.dy * k, RADIUS as real)
    else o
  }

  /** The clamp as `handle_wheel` performs it: `dx`, `dy` and `dist`
      reassigned in place when the click lies beyond the rim. */
  method ClampEvent(o: Offset) returns (c: Offset)
    requires Measured(o)
    ensures c == ClampToRim(o)
  {
    var dx, dy, dist := o.dx, o.dy, o.dist;
    if dist > RADIUS as real {
      dx := dx * (RADIUS as real / dist);
      dy := dy * (RADIUS as real / dist);
      dist := RADIUS as real;
    }
    c := Offset(dx, dy, dist);
  }

  lemma ScaleOffset(o: Offset, k: real)
    requires Measured(o) && o.dist > 0.0 && k == RADIUS as real / o.dist
    ensures Measured(Offset(o.dx * k, o.dy * k, RADIUS as real))
    ensures SameDirection(o, Offset(o.dx * k, o.dy * k, RADIUS as real))
  {
    var x, y, d, r := o.dx, o.dy, o.dist, RADIUS as real;
    assert k * d == r;
    var sx, sy := x * k, y * k;
    assert sx * sx == (x * x) * (k * k);
    assert sy * sy == (y * y) * (k * k);
    assert sx * sx + sy * sy == (x * x + y * y) * (k * k);
    assert (d * d) * (k * k) == (k * d) * (k * d);
    assert k > 0.0;
    assert sx * y == sy * x;
    SignScaled(x, k);
    SignScaled(y, k);
  }

  lemma SignScaled(x: real, k: real)
    requires k > 0.0
    ensures (x * k < 0.0 <==> x < 0.0) && (x * k > 0.0 <==> x > 0.0)
  {
    if x < 0.0 {
      MulStrict(x, 0.0, k);
    } else if x > 0.0 {
      MulStrict(0.0, x, k);
    }
  }

  /** The offset of a canvas position (a clicked or a painted pixel) from the
      wheel's centre. */
  function OffsetFromCentre(m: Routines, ex: int, ey: int): (o: Offset)
    requires Lawful(m)
    ensures Measured(o)
    ensures o.dist <= RADIUS as real <==> InDisc(ex - CENTER, ey - CENTER)
  {
    var dx, dy := (ex - CENTER) as real, (ey - CENTER) as real;
    RealSquares(ex - CENTER, ey - CENTER);
    SqrtAtMost(m, dx * dx + dy * dy, RADIUS as real);
    Offset(dx, dy, m.sqrt(dx * dx + dy * dy))
  }

  /** What a wheel click selects: hue, saturation and the canvas point
      where the indicator goes. */
  datatype WheelPick = WheelPick(hue: real, sat: real, x: real, y: real)

  /** `handle_wheel` on a click at (`ex`, `ey`): the selected hue and
      saturation lie in [0,1] and the indicator point lies in the disc; a
      point inside the disc is taken as it is, one outside is pulled onto
      the rim at full saturation. */
  function PickOnWheel(m: Routines, ex: int, ey: int): (p: WheelPick)
    requires Lawful(m)
    ensures Unit(p.hue) && Unit(p.sat)
    ensures InDisc(ex - CENTER, ey - CENTER) ==> p.x == ex as real && p.y == ey as real
    ensures !InDisc(ex - CENTER, ey - CENTER) ==> p.sat == 1.0
  {
    var c := ClampToRim(OffsetFromCentre(m, ex, ey));
    WheelPick(Hue(m.atan2(c.dy, c.dx)), Saturation(c), CENTER as real + c.dx, CENTER as real + c.dy)
  }

  /** The indicator point of a wheel click lies in the disc. */
  lemma PickInsideDisc(m: Routines, ex: int, ey: int)
    requires Lawful(m)
    ensures var p := PickOnWheel(m, ex, ey);
      (p.x - CENTER as real) * (p.x - CENTER as real) + (p.y - CENTER as real) * (p.y - CENTER as real)
        <= RADIUS as real * RADIUS as real
  {
    var c := ClampToRim(OffsetFromCentre(m, ex, ey));
    var p := PickOnWheel(m, ex, ey);
    assert p.x - CENTER as real == c.dx && p.y - CENTER as real == c.dy;
    MulMonotone(c.dist, RADIUS as real, c.dist);
    MulMonotone(c.dist, RADIUS as real, RADIUS as real);
  }

  /** A click on the positive x-axis (right of the centre, inside the disc
      or beyond it) selects hue exactly 1/2. */
  lemma PositiveAxisHue(m: Routines, ex: int)
    requires Lawful(m) && ex > CENTER
    ensures PickOnWheel(m, ex, CENTER).hue == 0.5
  {
    var o := OffsetFromCentre(m, ex, CENTER);
    var c := ClampToRim(o);
    if o.dist > RADIUS as real {
      assert c.dy == 0.0 && c.dx > 0.0;
    }
  }

  /** A click on the negative x-axis selects hue exactly 1: the hue is not
      reduced modulo 1. */
  lemma NegativeAxisHue(m: Routines, ex: int)
    requires Lawful(m) && ex < CENTER
    ensures PickOnWheel(m, ex, CENTER).hue == 1.0
  {
    var o := OffsetFromCentre(m, ex, CENTER);
    var c := ClampToRim(o);
    if o.dist > RADIUS as real {
      assert c.dy == 0.0 && c.dx < 0.0;
    }
  }

  /** A click on the centre selects saturation zero. */
  lemma CentreHasNoSaturation(m: Routines)
    requires Lawful(m)
    ensures PickOnWheel(m, CENTER, CENTER).sat == 0.0
  {
    CentreOffset(m);
    ClampInside(OffsetFromCentre(m, CENTER, CENTER));
    assert PickOnWheel(m, CENTER, CENTER).sat == 0.0 / RADIUS as real;
  }

  /** The centre pixel is at distance zero from the centre. */
  lemma CentreOffset(m: Routines)
    requires Lawful(m)
    ensures OffsetFromCentre(m, CENTER, CENTER) == Offset(0.0, 0.0, 0.0)
  {
  }

  /** Inside the disc the saturation is the distance over the radius. */
  lemma InsideSaturation(m: Routines, ex: int, ey: int)
    requires Lawful(m) && InDisc(ex - CENTER, ey - CENTER)
    ensures PickOnWheel(m, ex, ey).sat == OffsetFromCentre(m, ex, ey).dist / RADIUS as real
  {
    ClampInside(OffsetFromCentre(m, ex, ey));
  }

  lemma ClampInside(o: Offset)
    requires Measured(o) && o.dist <= RADIUS as real
    ensures ClampToRim(o) == o
  {
  }

  /** The coordinates `move_indicator` gives the indicator oval. */
  datatype Box = Box(x0: real, y0: real, x1: real, y1: real)

  function OvalAt(x: real, y: real): (b: Box)
    ensures b.x0 + b.x1 == 2.0 * x && b.y0 + b.y1 == 2.0 * y
    ensures b.x1 - b.x0 == b.y1 - b.y0 == 2.0 * INDICATOR_RADIUS as real
  {
    var r := INDICATOR_RADIUS as real;
    Box(x - r, y - r, x + r, y + r)
  }

  predicate BoxWithin(b: Box, lo: real, hi: real)
  {
    lo <= b.x0 && b.x1 <= hi && lo <= b.y0 && b.y1 <= hi
  }

  /** Wherever the wheel is clicked, the indicator oval stays within
      [6, 244] on both axes. */
  lemma IndicatorOnCanvas(m: Routines, ex: int, ey: int)
    requires Lawful(m)
    ensures var p := PickOnWheel(m, ex, ey); BoxWithin(OvalAt(p.x, p.y), 6.0, 244.0)
  {
    var p := PickOnWheel(m, ex, ey);
    var u, v := p.x - CENTER as real, p.y - CENTER as real;
    PickInsideDisc(m, ex, ey);
    assert u * u + v * v <= RADIUS as real * RADIUS as real;
    DiscInSquare(u, v);
    OvalInBand(p.x, p.y);
  }

  /** A point of the disc lies within RADIUS of the centre on each axis. */
  lemma DiscInSquare(u: real, v: real)
    requires u * u + v * v <= RADIUS as real * RADIUS as real
    ensures -RADIUS as real <= u <= RADIUS as real && -RADIUS as real <= v <= RADIUS as real
  {
    var uu, vv := u * u, v * v;
    assert 0.0 <= uu && 0.0 <= vv;
    SquareBound(u, RADIUS as real);
    SquareBound(v, RADIUS as real);
  }

  /** The oval centred within RADIUS of the centre on each axis stays within
      [6, 244]. */
  lemma OvalInBand(x: real, y: real)
    requires -RADIUS as real <= x - CENTER as real <= RADIUS as real
    requires -RADIUS as real <= y - CENTER as real <= RADIUS as real
    ensures BoxWithin(OvalAt(x, y), 6.0, 244.0)
  {
    Geometry();
  }
}
