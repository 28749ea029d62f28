/** The value slider: the gradient `draw_slider` paints, the black bar that
    marks the current value, and the value `handle_slider` reads off a
    click. */
module Slider {
  import opened MathLib
  import opened ColorText
  import opened Layout
  import Wheel

  /** `max(0, min(1, 1 - y / SIZE))` for a click at row `ey`. */
  function SliderValue(ey: int): (v: real)
    ensures Unit(v)
    ensures ey <= 0 ==> v == 1.0
    ensures ey >= SIZE ==> v == 0.0
  {
    var t := 1.0 - ey as real / SIZE as real;
    var capped := if t < 1.0 then t else 1.0;
    if capped > 0.0 then capped else 0.0
  }

  /** `int((1 - val) * SIZE)`: the row of the slider bar for value `v`. */
  function IndicatorRow(v: real): (row: int)
    ensures Unit(v) ==> 0 <= row <= SIZE
    ensures Unit(v) ==> (row == SIZE <==> v == 0.0)
  {
    Trunc((1.0 - v) * SIZE as real)
  }

  /** `1 - y / SIZE`: the value painted on gradient row `y`. */
  function GradientValue(y: int): (v: real)
    ensures 0 <= y < SIZE ==> 0.0 < v <= 1.0
  {
    1.0 - y as real / SIZE as real
  }

  /** The rows further down the slider are painted darker. */
  lemma GradientDescends(y1: int, y2: int)
    requires y1 < y2
    ensures GradientValue(y2) < GradientValue(y1)
  {
  }

  /** A higher click never selects a smaller value. */
  lemma SliderValueMonotone(y1: int, y2: int)
    requires y1 <= y2
    ensures SliderValue(y2) <= SliderValue(y1)
  {
  }

  /** A click on a painted row selects the value painted there. */
  lemma ClickSelectsRowValue(ey: int)
    requires 0 <= ey < SIZE
    ensures SliderValue(ey) == GradientValue(ey)
  {
  }

  /** After a click the bar sits on the clicked row, or on the nearer end of
      the slider for a click beyond it. */
  lemma IndicatorFollowsClick(ey: int)
    ensures IndicatorRow(SliderValue(ey)) == if ey < 0 then 0 else if ey > SIZE then SIZE else ey
  {
    if 0 <= ey <= SIZE {
      var v := SliderValue(ey);
      assert v == 1.0 - ey as real / SIZE as real;
      assert (1.0 - v) * SIZE as real == ey as real;
    }
  }

  /** The bar marks the first row whose painted value is within one row's
      step of the current value, never below it: truncation places it at or
      above the exact position. */
  lemma IndicatorNearValue(v: real)
    requires Unit(v)
    ensures v <= GradientValue(IndicatorRow(v)) < v + 1.0 / SIZE as real
  {
    var row := IndicatorRow(v);
    var t := (1.0 - v) * SIZE as real;
    assert row as real <= t < row as real + 1.0;
    assert GradientValue(row) == 1.0 - row as real / SIZE as real;
    assert v == 1.0 - t / SIZE as real;
  }

  /** The lower-case fill of gradient row `y` for the current hue and
      saturation. */
  function SliderLine(m: Routines, hue: real, sat: real, y: int): (f: string)
    requires Lawful(m) && Unit(hue) && Unit(sat) && 0 <= y < SIZE
    ensures |f| == 7 && f[0] == '#'
  {
    HexColor(Quantise(m.hsvToRgb(hue, sat, GradientValue(y))), false)
  }

  /** The top row of the slider has the colour the wheel shows for the same
      hue and saturation. */
  lemma TopRowIsWheelColour(m: Routines, hue: real, sat: real)
    requires Lawful(m) && Unit(hue) && Unit(sat)
    ensures SliderLine(m, hue, sat, 0) == Wheel.WheelFill(m, hue, sat)
  {
    assert GradientValue(0) == 1.0;
  }

  datatype Rect = Rect(x0: int, y0: int, x1: int, y1: int)

  /** The black bar `draw_slider` draws across the slider, centred on the
      value's row. */
  function IndicatorBar(v: real): (b: Rect)
    ensures b.x0 == 0 && b.x1 == SLIDER_WIDTH
    ensures b.y0 + b.y1 == 2 * IndicatorRow(v)
    ensures b.y1 - b.y0 == 2 * SLIDER_INDICATOR_HEIGHT
  {
    var row := IndicatorRow(v);
    Rect(0, row - SLIDER_INDICATOR_HEIGHT, SLIDER_WIDTH, row + SLIDER_INDICATOR_HEIGHT)
  }

  /** After a click on a row of the slider the bar is centred on that row,
      while a click beyond either end centres it on that end. */
  lemma BarFollowsClick(ey: int)
    ensures var row := if ey < 0 then 0 else if ey > SIZE then SIZE else ey;
      IndicatorBar(SliderValue(ey)) == Rect(0, row - SLIDER_INDICATOR_HEIGHT, SLIDER_WIDTH, row + SLIDER_INDICATOR_HEIGHT)
  {
    IndicatorFollowsClick(ey);
  }

  /** `lines` is the gradient the slider canvas shows, top row first. */
  ghost predicate ShowsGradient(lines: seq<string>, m: Routines, hue: real, sat: real)
  {
    Lawful(m) && Unit(hue) && Unit(sat) && |lines| == SIZE &&
    forall y :: 0 <= y < SIZE ==> lines[y] == SliderLine(m, hue, sat, y)
  }

  /** The loop of `draw_slider`: one line per row, value falling with the row. */
  method PaintGradient(m: Routines, hue: real, sat: real) returns (lines: seq<string>)
    requires Lawful(m) && Unit(hue) && Unit(sat)
    ensures ShowsGradient(lines, m, hue, sat)
  {
    lines := [];
    for y := 0 to SIZE
      invariant |lines| == y
      invariant forall i :: 0 <= i < y ==> lines[i] == SliderLine(m, hue, sat, i)
    {
      var v := 1.0 - y as real / SIZE as real;
      var c := m.hsvToRgb(hue, sat, v);
      assert v == GradientValue(y);
      var fill := HexColor(Quantise(c), false);
      lines := lines + [fill];
    }
  }
}
