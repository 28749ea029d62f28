# Advanced Color Picker: a Dafny model of the picker core

`app.py` is a Tkinter colour picker. It has a hue/saturation wheel, a value slider, a readout and a screen sampler. Under the widgets sits a small piece of logic, and this project models it and proves properties of it:

- **The picker state.** This is `hue`, `sat` and `val` of `AdvancedColorPicker`.
- **The handlers that set the state.**
  - `handle_wheel` sets hue and saturation from a clicked position.
  - `handle_slider` sets the value from a clicked row.
  - `set_from_rgb` sets all three from a sampled pixel.
- **The views derived from the state.**
  - The wheel canvas is drawn once by `_draw_wheel`.
  - The slider gradient and its bar come from `draw_slider`.
  - The `#RRGGBB` label, the preview colour and the decimal R, G, B fields come from `update_color`.
  - The indicator oval is placed by `move_indicator`.

The modules follow the program's structure:

- `numerals.dfy` (`Numerals`): positional numerals, zero padding and a parser. It gives a general reference for `f"{n:02X}"` and `str(n)` and proves the round trips.
- `colortext.dfy` (`ColorText`): the text side.
  - `int(c*255)` quantisation, with truncation toward zero.
  - The two-digit hex byte and the decimal text, each proved equal to the general format.
  - `#RRGGBB` encoding and decoding, and the round trips in both directions.
- `mathlib.dfy` (`MathLib`): the floating-point routines the program calls. These are `math.sqrt`, `math.atan2`, `math.cos`, `math.sin`, `colorsys.hsv_to_rgb` and `colorsys.rgb_to_hsv`. They are a record of functions, `Routines`, constrained only by the laws in `Lawful`.
- `layout.dfy` (`Layout`): the class constants, and `CENTER`/`RADIUS` as `__init__` derives them.
- `wheel.dfy` (`Wheel`):
  - disc membership;
  - the hue and saturation formulas;
  - the pixels `_draw_wheel` paints, with its two loops as methods;
  - the clamp of `handle_wheel`;
  - the indicator oval.
- `slider.dfy` (`Slider`): the slider value clamp, the bar row, the gradient rows, and the `draw_slider` loop.
- `picker.dfy` (`Picker`):
  - the channels and readout of a colour;
  - the indicator placement of `set_from_rgb`;
  - the class `ColorPicker`. Its fields are the state and its displayed views, and its methods are `__init__`, the handlers and the repaints.

`ColorPicker.Valid()` is the class invariant:

- the state is in range;
- the indicator oval lies within [6, 244] on both axes;
- the slider shows the gradient of the current hue and saturation, with the bar at the current value;
- the label, the preview and the fields show the current colour.

The constructor establishes `Valid()`. Every handler preserves it and states its new state. The wheel image is drawn once, by the constructor, and no handler changes it.

In these places the code departs from the usual conventions of an HSV picker, and the model follows the code. The usual conventions are hue in [0,1), wrapping modulo 1; rounded channels and bar row; hue 0 to the right of the centre; and a bar-only redraw on a value change.

- **Hue can be exactly 1.** The hue is `(atan2(dy, dx) + pi) / (2 pi)` and is not reduced modulo 1. `Wheel.NegativeAxisHue` shows that it reaches 1.
- **Truncation, not rounding.** Channels and the slider bar row use `int()`.
- **A click right of the centre selects hue 1/2, not 0.** At offset (`RADIUS`, 0) the hue is `(0 + pi) / (2 pi)`, which `Wheel.PositiveAxisHue` proves. Red sits on the left of the wheel, where the code gives hue 1 (`Wheel.NegativeAxisHue`).
- **The whole slider is repainted on every value change.** `handle_slider` calls `draw_slider`, which repaints everything, not only the bar.

## Model

| member | source | states |
|---|---|---|
| Numerals.Digits | app.py:227 | The digit sequence of `n` has at least one digit, every digit below the base, value `n`, and no leading zero unless `n` is zero. |
| Numerals.FormatDigitChars | app.py:227 | Every character of a formatted numeral is a digit of the base in the chosen letter case. |
| Numerals.FormatRoundTrip | app.py:227 | Parsing a formatted numeral gives the number back, for any padding width and letter case. |
| Numerals.FormatOfParsed | app.py:227 | A digit string in one letter case parses, and formatting its value at its own width gives the same string back (leading zeros come back as padding). |
| Numerals.PadDigitsOfValue | app.py:227 | Padding the digits of a numeral's value to the numeral's width gives that numeral's digits back. |
| Numerals.ValueLeadingZeros | app.py:227 | Zero padding on the left does not change a numeral's value. |
| ColorText.Trunc | app.py:226 | Python's `int()` on a float truncates toward zero. The result is within one below a non-negative argument and within one above a negative one. |
| ColorText.Channel | app.py:226 | `int(c*255)` of a channel in [0,1] is a byte. |
| ColorText.ChannelIsFloor | app.py:226 | For `c` in [0,1], `int(c*255)` is the floor of `c*255`. It is a byte, and it is 255 exactly when `c` is 1. |
| ColorText.Quantise | app.py:226 | Channels in [0,1] quantise to a triple of bytes. |
| ColorText.ChannelOfByte | app.py:212 | A byte `n` survives `n/255` and `int(.*255)` unchanged. |
| ColorText.HexByte | app.py:227 | The `02X`/`02x` text of a byte is two characters long. |
| ColorText.HexByteIsFormat | app.py:227 | That text is the general zero-padded two-digit hex numeral. |
| ColorText.DecimalText | app.py:230-232 | `str(n)` is never empty. |
| ColorText.DecimalTextIsFormat | app.py:230-232 | `str(n)` is the general unpadded decimal numeral of `n`. |
| ColorText.DecimalTextShape | app.py:230-232 | `str(n)` has decimal digits only and no superfluous leading zero. |
| ColorText.HexColor | app.py:227 | `#RRGGBB` has seven characters and starts with `#`. |
| ColorText.HexColorShape | app.py:227 | The six characters after `#` are hex digits in the chosen case. |
| ColorText.DecodeHexColor | app.py:227 | Whatever a `#RRGGBB` string decodes to is a byte triple. |
| ColorText.HexColorRoundTrip | app.py:227 | Decoding the `#RRGGBB` text of a byte triple gives exactly that triple. |
| ColorText.HexColorOfDecoded | app.py:227 | Every decodable `#RRGGBB` string with letters in one case is the encoding of what it decodes to. So the encoding is a bijection. |
| ColorText.DecimalRoundTrip | app.py:230-232 | The decimal field reads back as its channel value. |
| ColorText.DecimalOfParsed | app.py:230-232 | A decimal string without a superfluous leading zero is `str` of its value. |
| ColorText.WhiteText | app.py:31-34 | The initial texts `#FFFFFF` and `255` are the texts of white. |
| ColorText.BlackText | app.py:227 | Black is written `#000000` and `0`. |
| MathLib.SqrtAtMost | app.py:137-138 | The float test `sqrt(d2) <= RADIUS` agrees with the squared test `d2 <= RADIUS^2`. |
| Layout.Geometry | app.py:47-48 | `CENTER` is 125 and `RADIUS` is 113. The indicator band is [6, 244]. The disc fits inside the 250-pixel canvas. |
| Wheel.Hue | app.py:140 | For `atan2` in [-pi, pi] the hue lies in [0,1]. Angle 0 gives 1/2. The hue is 1 exactly at angle pi (no reduction modulo 1). |
| Wheel.DiscInsideCanvas | app.py:133-138 | Every offset the disc test accepts moves at most `RADIUS` on each axis, so its pixel is on the canvas. |
| Wheel.Saturation | app.py:139 | `dist / RADIUS` inside the disc lies in [0,1]. It is 0 exactly at the centre and 1 exactly on the rim. |
| Wheel.WheelFill | app.py:141-145 | A wheel pixel's fill is seven characters long and starts with `#`. |
| Wheel.WheelPixel | app.py:135-145 | One pass of the loop body. `_draw_wheel` paints pixel (`x`, `y`) exactly when its integer offset from the centre passes the disc test `InDisc` (`dx^2 + dy^2 <= RADIUS^2`, the squared form of line 138). The paint is a seven-character `#rrggbb` fill. |
| Wheel.WheelRow | app.py:134-145 | The reference definition of the inner loop: the first `n` pixels of a row, `n` of them. `WheelRowPixel` states entry `x`. |
| Wheel.WheelImage | app.py:133-145 | The reference definition of the outer loop: `n` rows of `SIZE` pixels each. `WheelImageRow` states row `y`. |
| Wheel.RenderWheelRow | app.py:134-145 | The inner loop produces the canvas row `WheelRow`: pixel `x` painted with the fill of its hue and saturation, or left unpainted outside the disc. |
| Wheel.RenderWheel | app.py:133-145 | The outer loop produces the SIZE by SIZE wheel image. |
| Wheel.WheelRowPixel | app.py:134-145 | Pixel `x` of a drawn row is the pixel at (`x`, `y`). |
| Wheel.WheelImageRow | app.py:133-145 | Row `y` of the drawn image is canvas row `y`. |
| Wheel.WheelAt | app.py:133-145 | The drawn image holds at (`x`, `y`) the pixel of that position. |
| Wheel.WheelCoversDisc | app.py:133-138 | Every offset in the disc has a painted pixel on the canvas. |
| Wheel.ClampToRim | app.py:177-180 | After the clamp the offset is measured and within the rim. An offset inside is unchanged. One outside lands on the rim, collinear with the original and with the same signs on both axes. |
| Wheel.ClampEvent | app.py:177-180 | Reassigning `dx`, `dy` and `dist` in place yields exactly the clamp. |
| Wheel.ScaleOffset | app.py:178-180 | Scaling by `RADIUS / dist` puts a measured offset on the rim and keeps its direction. |
| Wheel.OffsetFromCentre | app.py:174-176 | `dist` is the Euclidean length, and `dist <= RADIUS` holds exactly when the integer offset is in the disc. |
| Wheel.PickOnWheel | app.py:174-183 | The selected hue and saturation lie in [0,1]. A click inside the disc keeps its point. A click outside gets saturation 1. |
| Wheel.PickInsideDisc | app.py:176-185 | The indicator point of a click lies in the disc. |
| Wheel.PositiveAxisHue | app.py:183 | A click right of the centre, on the horizontal axis, selects hue 1/2. |
| Wheel.NegativeAxisHue | app.py:183 | A click left of the centre, on the horizontal axis, selects hue 1. |
| Wheel.CentreHasNoSaturation | app.py:182 | A click on the centre selects saturation 0. |
| Wheel.CentreOffset | app.py:174-176 | The centre pixel has offset and distance zero. |
| Wheel.InsideSaturation | app.py:182 | Inside the disc the saturation is the click's distance over the radius. |
| Wheel.ClampInside | app.py:177 | The clamp leaves an offset within the rim alone. |
| Wheel.OvalAt | app.py:165-170 | The oval is centred on the given point, with width and height `2 * INDICATOR_RADIUS`. |
| Wheel.IndicatorOnCanvas | app.py:173-185 | Wherever the wheel is clicked, the oval around the clamped point stays within [6, 244] on both axes. |
| Wheel.DiscInSquare | app.py:176-180 | A point of the disc lies within `RADIUS` of the centre on each axis. |
| Wheel.OvalInBand | app.py:165-170 | An oval centred within `RADIUS` of the centre stays within [6, 244]. |
| Slider.SliderValue | app.py:190 | The clamped value lies in [0,1]. A row at or above the top gives 1, and a row at or below `SIZE` gives 0. |
| Slider.SliderValueMonotone | app.py:190 | The value does not increase as the clicked row increases. |
| Slider.IndicatorRow | app.py:156 | For a value in [0,1] the bar row lies in [0, SIZE]. It is `SIZE` exactly when the value is 0. |
| Slider.IndicatorFollowsClick | app.py:156 | After a click on row `y` (line 190) the bar lands exactly on `y`, or on the nearer end for a click beyond the slider. |
| Slider.IndicatorNearValue | app.py:156 | The bar row's painted value is at least the value and less than one row's step above it. |
| Slider.GradientValue | app.py:150 | Every painted row has a value in (0, 1]. |
| Slider.GradientDescends | app.py:149-150 | Lower rows are painted with smaller values. |
| Slider.ClickSelectsRowValue | app.py:190 | A click on a painted row selects the value painted there (line 150). |
| Slider.SliderLine | app.py:151-155 | A gradient row's fill is seven characters long and starts with `#`. |
| Slider.TopRowIsWheelColour | app.py:151-154 | The top slider row has the colour the wheel shows for the same hue and saturation. |
| Slider.IndicatorBar | app.py:156-163 | The bar spans the slider's width and is centred on the bar row (`y0 + y1 == 2 * row`), with height `2 * SLIDER_INDICATOR_HEIGHT`. |
| Slider.BarFollowsClick | app.py:156-163 | After a click on slider row `y` (line 190) the bar runs from `y - 2` to `y + 2`. A click beyond either end centres it on that end. |
| Slider.PaintGradient | app.py:149-155 | The loop paints `SIZE` lines, and line `y` has the fill of value `1 - y/SIZE`. |
| Picker.ChannelsOf | app.py:225-226 | The displayed channels are bytes, none above `int(val*255)`. They are all 0 at value 0 and all equal without saturation. |
| Picker.ChannelMonotone | app.py:226 | `int(c*255)` is monotone on [0,1]. |
| Picker.ReadoutOf | app.py:224-232 | The label text is seven characters long. |
| Picker.ReadoutRoundTrip | app.py:226-232 | The readout determines the colour. The label decodes to it and uses upper-case letters, and each field parses to its channel. |
| Picker.PlaceAtDistance | app.py:214-217 | `PlaceOfHsv` (angle `h*2pi - pi`, distance `s*RADIUS`) puts the indicator at squared distance `(s*RADIUS)^2` from the centre. For `s` in [0,1] that offset lies in the disc (`Measured`, length `s*RADIUS`), and the wheel's saturation `dist / RADIUS` of it is `s` again. |
| Picker.PlaceOnCanvas | app.py:214-219 | Wherever `set_from_rgb` puts the indicator (`PlaceOfHsv`: angle `h*2pi - pi`, distance `s*RADIUS`), the oval stays within [6, 244]. |
| Picker.UnitCoordinate | app.py:216-217 | A coordinate of a point on the unit circle, scaled by `d`, lies in [-d, d]. |
| Picker.SampleHsv | app.py:212 | `rgb_to_hsv(r/255, g/255, b/255)` of a sampled byte triple has hue, saturation and value each in [0,1]. |
| Picker.GreySampleShowsGrey | app.py:212 | Sampling a grey pixel shows exactly that grey (line 226), whatever hue was set. |
| Picker.ZeroValueIsBlack | app.py:224-232 | At value 0 the readout is `#000000`, `0`, `0`, `0`. |
| Picker.WhiteReadout | app.py:31-38 | The initial readout strings are exactly what `update_color` shows for the initial state. |
| Picker.CentreClickIsWhite | app.py:182-187 | A click on the wheel's centre at full value shows white. |
| Picker.ColorPicker.constructor | app.py:30-104 | Starts white (hue 0, saturation 0, value 1) with the indicator at the centre, the wheel drawn, and `Valid()`. |
| Picker.ColorPicker.MoveIndicator | app.py:165-170 | The oval is centred on (`x`, `y`). Nothing else changes. |
| Picker.ColorPicker.DrawSlider | app.py:147-163 | The slider shows the current gradient and bar. Only the slider changes. |
| Picker.ColorPicker.UpdateColor | app.py:224-232 | The label, the preview and the fields show the current colour. No HSV field changes. |
| Picker.ColorPicker.Refresh | app.py:186-187 | `draw_slider` then `update_color`: the slider and the readout are brought in step with the state. |
| Picker.ColorPicker.HandleWheel | app.py:173-187 | Hue, saturation and indicator become those of the clamped pick. The value and the wheel are untouched, and `Valid()` is kept. |
| Picker.ColorPicker.HandleSlider | app.py:189-192 | The value becomes the clamped slider value. Hue, saturation, indicator and wheel are untouched, and `Valid()` is kept. |
| Picker.ColorPicker.SetFromRgb | app.py:211-221 | The state becomes `rgb_to_hsv(r/255, g/255, b/255)`, with the indicator at `PlaceOfHsv`. The wheel is untouched, and `Valid()` holds. |

## Left out

- **Tk widgets and window setup** (`app.py:14-104` apart from the state, the constants, the drawing and the indicator):
  - layout and fonts;
  - the icon and `resource_path`/`pil_img`;
  - `_rgb_entry`;
  - the `ctypes` DPI and app-ID calls;
  - `StringVar` plumbing.

  These are user-interface and platform calls with no logic. The text variables and the preview background are plain string fields.
- **Canvas primitives are modelled as values.** `create_line`, `create_rectangle`, `create_oval`, `coords` and `delete("all")` become:
  - the wheel image, a `SIZE` by `SIZE` grid of optional fill strings;
  - the list of slider line fills;
  - the bar rectangle;
  - the oval's box.

  The endpoints of each one-pixel line and the outline styles are not recorded.
- **Threads and timers are left out.** This covers the `pynput` listener thread, `on_click` and `root.after`. The sampled pixel reaches the model as the arguments of `SetFromRgb`.
- **The screen read is left out.** `get_color`'s `ImageGrab` read is external I/O.
- **`copy_color` is left out.** It is a clipboard write plus a 1200 ms timed label change: I/O and time.
- **Floats are modelled as exact reals.** IEEE rounding is not modelled. So `Slider.IndicatorFollowsClick` and the other exact-row facts hold only in that idealisation.
- **The numeric routines are known only by their laws in `MathLib.Lawful`.** These are `math.sqrt`, `math.atan2`, `math.cos`, `math.sin` and `colorsys`. No HSV to RGB round trip is claimed.
- ColorText.HexByte: defined for bytes only, while `02X` formats any integer. Every value it receives is a quantised channel, which is a byte.
- Picker.ColorPicker.Refresh: not a method of the source. It stands for the `draw_slider(); update_color()` pair that every handler and `__init__` end with.
- Picker.ColorPicker.SetFromRgb: requires only the laws and a byte triple, not `Valid()`, because `set_from_rgb` overwrites the whole state.
- **Number types are idealised.** `__init__` stores hue and saturation as the integer `0`, and `max(0, min(1, ...))` can return the integer `0` or `1`. The model stores these as reals.
