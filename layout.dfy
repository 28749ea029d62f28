/** The fixed layout of the picker's two canvases (class constants of
    `AdvancedColorPicker` and the values `__init__` derives from them). */
module Layout {

  /** Width and height of the wheel canvas; height of the slider canvas. */
  const SIZE: int := 250
  const PADDING: int := 12
  const SLIDER_WIDTH: int := 30
  const SLIDER_INDICATOR_HEIGHT: int := 2
  const INDICATOR_RADIUS: int := 6

  /** `SIZE // 2` (floor division; 250 is even, so nothing is lost). */
  const CENTER: int := SIZE / 2
  const RADIUS: int := CENTER - PADDING

  /** The wheel's centre and radius, and the band [6, 244] that bounds the
      wheel indicator on both axes: the rim lies RADIUS from the centre and
      the oval reaches INDICATOR_RADIUS beyond it. */
  lemma Geometry()
    ensures CENTER == 125 && RADIUS == 113
    ensures CENTER - RADIUS - INDICATOR_RADIUS == 6
    ensures CENTER + RADIUS + INDICATOR_RADIUS == 244
    ensures 0 <= CENTER - RADIUS && CENTER + RADIUS < SIZE
  {
  }
}
