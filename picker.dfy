/** `AdvancedColorPicker`: the picker's state (hue, saturation, value), the
    widgets that show it, and the handlers that change it. */
module Picker {
  import opened Numerals
  import opened MathLib
  import opened ColorText
  import opened Layout
  import opened Wheel
  import opened Slider

  /** The channels `update_color` shows for a colour in hue, saturation,
      value coordinates: bytes, none above the value's own channel, all zero
      at value zero and all equal without saturation. */
  function ChannelsOf(m: Routines, h: real, s: real, v: real): (c: Rgb)
    requires Lawful(m) && Unit(h) && Unit(s) && Unit(v)
    ensures IsRgb(c)
    ensures c.r <= Channel(v) && c.g <= Channel(v) && c.b <= Channel(v)
    ensures v == 0.0 ==> c == Rgb(0, 0, 0)
    ensures s == 0.0 ==> c == Rgb(Channel(v), Channel(v), Channel(v))
  {
    var f := m.hsvToRgb(h, s, v);
    ChannelMonotone(f.r, v);
    ChannelMonotone(f.g, v);
    ChannelMonotone(f.b, v);
    Quantise(f)
  }

  /** `int(a*255) <= int(b*255)` for `a <= b` in [0,1]. */
  lemma ChannelMonotone(a: real, b: real)
    requires 0.0 <= a <= b <= 1.0
    ensures Channel(a) <= Channel(b)
  {
    ChannelIsFloor(a);
    ChannelIsFloor(b);
    assert Channel(a) as real <= a * 255.0 <= b * 255.0 < Channel(b) as real + 1.0;
  }

  /** The texts of the hex label and the R, G, B fields. */
  datatype Readout = Readout(hex: string, r: string, g: string, b: string)

  /** The readout of a colour: upper-case `#RRGGBB` in the label and the
      decimal channels in the fields. */
  function ReadoutOf(c: Rgb): (t: Readout)
    requires IsRgb(c)
    ensures |t.hex| == 7
  {
    Readout(HexColor(c, true), DecimalText(c.r), DecimalText(c.g), DecimalText(c.b))
  }

  /** The readout determines the colour: the label decodes back to it, each
      field reads back as its channel, and the label's letters are upper
      case. */
  lemma ReadoutRoundTrip(c: Rgb)
    requires IsRgb(c)
    ensures var t := ReadoutOf(c);
      DecodeHexColor(t.hex) == Some(c) &&
      (forall i :: 1 <= i < 7 ==> IsDigitChar(t.hex[i], 16, true)) &&
      Parse(t.r, 10) == Some(c.r) && Parse(t.g, 10) == Some(c.g) && Parse(t.b, 10) == Some(c.b)
  {
    HexColorRoundTrip(c, true);
    HexColorShape(c, true);
    DecimalRoundTrip(c.r);
    DecimalRoundTrip(c.g);
    DecimalRoundTrip(c.b);
  }

  /** The canvas point `set_from_rgb` moves the indicator to: the point at
      angle `h * 2 pi - pi` and distance `s * RADIUS` from the centre. */
  function PlaceOfHsv(m: Routines, h: real, s: real): (p: (real, real))
  {
    var angle := h * 2.0 * PI - PI;
    var dist := s * RADIUS as real;
    (CENTER as real + m.cos(angle) * dist, CENTER as real + m.sin(angle) * dist)
  }

  /** The indicator is placed at distance `s * RADIUS` from the centre. For
      a saturation in [0,1] the wheel's saturation of that offset,
      `dist / RADIUS`, is `s` again. */
  lemma PlaceAtDistance(m: Routines, h: real, s: real)
    requires Lawful(m)
    ensures var p := PlaceOfHsv(m, h, s);
      var u, w := p.0 - CENTER as real, p.1 - CENTER as real;
      u * u + w * w == (s * RADIUS as real) * (s * RADIUS as real)
    ensures var p := PlaceOfHsv(m, h, s);
      var o := Offset(p.0 - CENTER as real, p.1 - CENTER as real, s * RADIUS as real);
      Unit(s) ==> Measured(o) && o.dist <= RADIUS as real && Saturation(o) == s
  {
    var angle := h * 2.0 * PI - PI;
    var dist := s * RADIUS as real;
    assert m.cos(angle) * m.cos(angle) + m.sin(angle) * m.sin(angle) == 1.0;
    ScaledCircle(m.cos(angle), m.sin(angle), dist);
    if Unit(s) {
      Geometry();
      UnitScale(s, RADIUS as real);
    }
  }

  /** A point of the unit circle scaled by `d` lies at distance `d`. */
  lemma ScaledCircle(c: real, z: real, d: real)
    requires c * c + z * z == 1.0
    ensures (c * d) * (c * d) + (z * d) * (z * d) == d * d
  {
    calc {
      (c * d) * (c * d) + (z * d) * (z * d);
      (c * c + z * z) * (d * d);
      d * d;
    }
  }

  /** The indicator oval centred on `PlaceOfHsv`. */
  function IndicatorOfHsv(m: Routines, h: real, s: real): Box
  {
    var p := PlaceOfHsv(m, h, s);
    OvalAt(p.0, p.1)
  }

  /** Wherever `set_from_rgb` places the indicator, the oval stays within
      [6, 244] on both axes, as after a wheel click. */
  lemma PlaceOnCanvas(m: Routines, h: real, s: real)
    requires Lawful(m) && Unit(s)
    ensures BoxWithin(IndicatorOfHsv(m, h, s), 6.0, 244.0)
  {
    var angle := h * 2.0 * PI - PI;
    var dist := s * RADIUS as real;
    Geometry();
    UnitScale(s, RADIUS as real);
    assert m.cos(angle) * m.cos(angle) + m.sin(angle) * m.sin(angle) == 1.0;
    UnitCoordinate(m.cos(angle), m.sin(angle), dist);
    UnitCoordinate(m.sin(angle), m.cos(angle), dist);
    var p := PlaceOfHsv(m, h, s);
    assert p.0 == CENTER as real + m.cos(angle) * dist && p.1 == CENTER as real + m.sin(angle) * dist;
    OvalInBand(p.0, p.1);
  }

  /** A fraction in [0,1] of a non-negative `k` lies in [0, k]. */
  lemma UnitScale(s: real, k: real)
    requires Unit(s) && 0.0 <= k
    ensures 0.0 <= s * k <= k
  {
    MulMonotone(0.0, s, k);
    MulMonotone(s, 1.0, k);
  }

  /** One coordinate of a point on the unit circle, scaled by `d`, lies in
      [-d, d]. */
  lemma UnitCoordinate(c: real, z: real, d: real)
    requires c * c + z * z == 1.0 && 0.0 <= d
    ensures -d <= c * d <= d
  {
    var cc, zz := c * c, z * z;
    assert 0.0 <= zz;
    SquareBound(c, 1.0);
    MulMonotone(c, 1.0, d);
    MulMonotone(-1.0, c, d);
  }

  /** Sampling a grey pixel of level `n` shows exactly that grey: the
      channels come back as `n`, whichever hue and saturation were set. */
  lemma GreySampleShowsGrey(m: Routines, n: int)
    requires Lawful(m) && IsByte(n)
    ensures var x := n as real / 255.0;
      var hsv := m.rgbToHsv(x, x, x);
      Unit(hsv.h) && Unit(hsv.s) && Unit(hsv.v) &&
      ChannelsOf(m, hsv.h, hsv.s, hsv.v) == Rgb(n, n, n)
  {
    var x := n as real / 255.0;
    var hsv := m.rgbToHsv(x, x, x);
    assert Unit(x);
    assert hsv.s == 0.0 && hsv.v == x;
    ChannelOfByte(n);
  }

  /** At value zero the label reads `#000000` and every field `0`. */
  lemma ZeroValueIsBlack(m: Routines, h: real, s: real)
    requires Lawful(m) && Unit(h) && Unit(s)
    ensures ReadoutOf(ChannelsOf(m, h, s, 0.0)) == Readout("#000000", "0", "0", "0")
  {
    BlackText();
  }

  /** A click on the wheel's centre at full value shows white. */
  lemma CentreClickIsWhite(m: Routines)
    requires Lawful(m)
    ensures var p := PickOnWheel(m, CENTER, CENTER);
      ReadoutOf(ChannelsOf(m, p.hue, p.sat, 1.0)) == Readout("#FFFFFF", "255", "255", "255")
  {
    CentreHasNoSaturation(m);
    WhiteReadout(m, PickOnWheel(m, CENTER, CENTER).hue);
  }

  /** Without saturation at full value the readout is white, whatever the
      hue: the state `__init__` starts in shows `#FFFFFF` and `255`s. */
  lemma WhiteReadout(m: Routines, h: real)
    requires Lawful(m) && Unit(h)
    ensures ReadoutOf(ChannelsOf(m, h, 0.0, 1.0)) == Readout("#FFFFFF", "255", "255", "255")
  {
    ChannelIsFloor(1.0);
    WhiteText();
  }

  /** `colorsys.rgb_to_hsv(r/255, g/255, b/255)` for a sampled pixel. */
  function SampleHsv(m: Routines, r: int, g: int, b: int): (c: Hsv)
    ensures Lawful(m) && IsRgb(Rgb(r, g, b)) ==> Unit(c.h) && Unit(c.s) && Unit(c.v)
  {
    m.rgbToHsv(r as real / 255.0, g as real / 255.0, b as real / 255.0)
  }

  class ColorPicker {
    const routines: Routines
    var hue: real
    var sat: real
    var val: real
    /** `hex_var`, `r_var`, `g_var`, `b_var` and the preview's background. */
    var hexVar: string
    var rVar: string
    var gVar: string
    var bVar: string
    var previewBg: string
    /** The wheel canvas: its pixels and the indicator oval's coordinates. */
    var wheelImage: seq<seq<Option<string>>>
    var indicator: Box
    /** The slider canvas: its gradient lines and the black bar. */
    var sliderLines: seq<string>
    var sliderBar: Rect

    ghost predicate Settled()
      reads this`hue, this`sat, this`val
    {
      Lawful(routines) && Unit(hue) && Unit(sat) && Unit(val)
    }

    /** The slider shows the gradient of the current hue and saturation and
      the bar at the current value. */
    ghost predicate SliderShown()
      reads this`hue, this`sat, this`val, this`sliderLines, this`sliderBar
    {
      Settled() && ShowsGradient(sliderLines, routines, hue, sat) && sliderBar == IndicatorBar(val)
    }

    /** The label, the preview and the fields show the current colour. */
    ghost predicate ReadoutShown()
      reads this`hue, this`sat, this`val, this`hexVar, this`previewBg, this`rVar, this`gVar, this`bVar
    {
      Settled() &&
      var t := ReadoutOf(ChannelsOf(routines, hue, sat, val));
      hexVar == t.hex && previewBg == t.hex && rVar == t.r && gVar == t.g && bVar == t.b
    }

    /** The picker at rest: state in range, indicator on the canvas, slider
        and readout in step with the state. The wheel is drawn once, by the
        constructor, and no handler touches it. */
    ghost predicate Valid()
      reads this`hue, this`sat, this`val, this`indicator, this`sliderLines, this`sliderBar
      reads this`hexVar, this`previewBg, this`rVar, this`gVar, this`bVar
    {
      Settled() && BoxWithin(indicator, 6.0, 244.0) && SliderShown() && ReadoutShown()
    }

    /** `__init__`: white (hue 0, saturation 0, value 1), the indicator at the
        centre, the wheel and slider drawn and the readout of white. */
    constructor (m: Routines)
      requires Lawful(m)
      ensures Valid() && routines == m
      ensures ShowsWheel(wheelImage, m)
      ensures hue == 0.0 && sat == 0.0 && val == 1.0
      ensures indicator == OvalAt(CENTER as real, CENTER as real)
      ensures hexVar == "#FFFFFF" && previewBg == "#FFFFFF"
      ensures rVar == "255" && gVar == "255" && bVar == "255"
    {
      routines := m;
      hexVar, rVar, gVar, bVar := "#FFFFFF", "255", "255", "255";
      previewBg := "#FFFFFF";
      hue, sat, val := 0.0, 0.0, 1.0;
      var image := RenderWheel(m);
      wheelImage := image;
      indicator := OvalAt(CENTER as real, CENTER as real);
      sliderLines, sliderBar := [], Rect(0, 0, 0, 0);
      new;
      Geometry();
      assert BoxWithin(indicator, 6.0, 244.0);
      Refresh();
      WhiteReadout(m, 0.0);
    }

    /** `move_indicator`: the oval is centred on (`x`, `y`). */
    method MoveIndicator(x: real, y: real)
      modifies this`indicator
      ensures indicator == OvalAt(x, y)
    {
      indicator := OvalAt(x, y);
    }

    /** `draw_slider`: repaints the gradient and the bar. */
    method DrawSlider()
      requires Settled()
      modifies this`sliderLines, this`sliderBar
      ensures SliderShown()
    {
      var lines := PaintGradient(routines, hue, sat);
      sliderLines := lines;
      sliderBar := IndicatorBar(val);
    }

    /** `update_color`: reformats the label, the preview and the fields. */
    method UpdateColor()
      requires Settled()
      modifies this`hexVar, this`previewBg, this`rVar, this`gVar, this`bVar
      ensures ReadoutShown()
    {
      var c := ChannelsOf(routines, hue, sat, val);
      var hexColor := HexColor(c, true);
      hexVar := hexColor;
      previewBg := hexColor;
      rVar, gVar, bVar := DecimalText(c.r), DecimalText(c.g), DecimalText(c.b);
    }

    /** The two repaints every handler ends with. */
    method Refresh()
      requires Settled()
      modifies this`sliderLines, this`sliderBar
      modifies this`hexVar, this`previewBg, this`rVar, this`gVar, this`bVar
      ensures SliderShown() && ReadoutShown()
    {
      DrawSlider();
      UpdateColor();
    }

    /** `handle_wheel`: hue and saturation from the click, the indicator
        moved to the (clamped) point; the value and the wheel are untouched. */
    method HandleWheel(ex: int, ey: int)
      requires Valid()
      modifies this`hue, this`sat, this`indicator, this`sliderLines, this`sliderBar
      modifies this`hexVar, this`previewBg, this`rVar, this`gVar, this`bVar
      ensures Valid()
      ensures var p := PickOnWheel(routines, ex, ey);
        hue == p.hue && sat == p.sat && indicator == OvalAt(p.x, p.y)
      ensures val == old(val) && wheelImage == old(wheelImage)
    {
      var c := ClampEvent(OffsetFromCentre(routines, ex, ey));
      ghost var p := PickOnWheel(routines, ex, ey);
      sat := Saturation(c);
      hue := Hue(routines.atan2(c.dy, c.dx));
      assert hue == p.hue && sat == p.sat;
      MoveIndicator(CENTER as real + c.dx, CENTER as real + c.dy);
      IndicatorOnCanvas(routines, ex, ey);
      Refresh();
    }

    /** `handle_slider`: the value from the clicked row; hue, saturation and
        the indicator are untouched. */
    method HandleSlider(ey: int)
      requires Valid()
      modifies this`val, this`sliderLines, this`sliderBar
      modifies this`hexVar, this`previewBg, this`rVar, this`gVar, this`bVar
      ensures Valid()
      ensures val == SliderValue(ey)
      ensures hue == old(hue) && sat == old(sat) && indicator == old(indicator)
      ensures wheelImage == old(wheelImage)
    {
      val := SliderValue(ey);
      Refresh();
    }

    /** `set_from_rgb`: the sampled colour converted to hue, saturation and
        value, and the indicator placed at that hue and saturation. */
    method SetFromRgb(r: int, g: int, b: int)
      requires Lawful(routines) && IsRgb(Rgb(r, g, b))
      modifies this`hue, this`sat, this`val, this`indicator, this`sliderLines, this`sliderBar
      modifies this`hexVar, this`previewBg, this`rVar, this`gVar, this`bVar
      ensures Valid()
      ensures Hsv(hue, sat, val) == SampleHsv(routines, r, g, b)
      ensures indicator == IndicatorOfHsv(routines, hue, sat)
      ensures wheelImage == old(wheelImage)
    {
      var hsv := SampleHsv(routines, r, g, b);
      assert Unit(hsv.h) && Unit(hsv.s) && Unit(hsv.v);
      hue, sat, val := hsv.h, hsv.s, hsv.v;
      var p := PlaceOfHsv(routines, hue, sat);
      MoveIndicator(p.0, p.1);
      PlaceOnCanvas(routines, hue, sat);
      Refresh();
    }
  }
}
