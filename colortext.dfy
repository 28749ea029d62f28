/** The text the picker shows for a colour: channels quantised with Python's
    `int(c*255)`, the `#RRGGBB` string of `update_color` and of the canvas
    fills, and the decimal R, G, B fields. */
module ColorText {
  import opened Numerals
  import opened MathLib

  /** An integer RGB triple; `IsRgb` says each channel is a byte. */
  datatype Rgb = Rgb(r: int, g: int, b: int)

  predicate IsByte(n: int)
  {
    0 <= n <= 255
  }

  predicate IsRgb(c: Rgb)
  {
    IsByte(c.r) && IsByte(c.g) && IsByte(c.b)
  }

  /** Python's `int(x)` on a float: truncation toward zero. It moves by
      less than one: down to the integer below a non-negative number, up to
      the integer above a negative one. */
  function Trunc(x: real): (t: int)
    ensures 0.0 <= x ==> 0 <= t && t as real <= x < t as real + 1.0
    ensures x < 0.0 ==> t <= 0 && t as real - 1.0 < x <= t as real
  {
    if x >= 0.0 then x.Floor else -((-x).Floor)
  }

  /** `int(c*255)`: one channel of a colour in [0,1] as an integer. */
  function Channel(c: real): (q: int)
    ensures Unit(c) ==> IsByte(q)
  {
    Trunc(c * 255.0)
  }

  /** For a channel in [0,1] the truncation is the floor, the result is a
      byte, and it reaches 255 only for full intensity: truncation, not
      rounding, so 254.9 becomes 254. */
  lemma ChannelIsFloor(c: real)
    requires 0.0 <= c <= 1.0
    ensures Channel(c) == (c * 255.0).Floor
    ensures IsByte(Channel(c))
    ensures Channel(c) == 255 <==> c == 1.0
  {
    var q := Channel(c);
    assert q as real <= c * 255.0 < q as real + 1.0;
    if q == 255 {
      assert c * 255.0 >= 255.0;
    }
  }

  /** The quantised colour `update_color` and the canvas fills format:
      each channel through `int(c*255)`. */
  function Quantise(c: Rgb01): (q: Rgb)
    ensures Unit(c.r) && Unit(c.g) && Unit(c.b) ==> IsRgb(q)
  {
    Rgb(Channel(c.r), Channel(c.g), Channel(c.b))
  }

  /** An integer channel value survives the trip through [0,1] and back:
      `int((n/255)*255) == n`. */
  lemma ChannelOfByte(n: int)
    requires IsByte(n)
    ensures Channel(n as real / 255.0) == n
  {
    assert n as real / 255.0 * 255.0 == n as real;
  }

  /** `f"{n:02X}"` (upper) or `f"{n:02x}"` (lower) for a byte: the two hex
      digits of `n`. */
  function HexByte(n: nat, upper: bool): (s: string)
    requires n <= 255
    ensures |s| == 2
  {
    [DigitChar(n / 16, upper), DigitChar(n % 16, upper)]
  }

  /** `str(n)` for a non-negative integer: its decimal digits. */
  function DecimalText(n: nat): (s: string)
    ensures 1 <= |s|
  {
    if n < 10 then [DigitChar(n, true)] else DecimalText(n / 10) + [DigitChar(n % 10, true)]
  }

  /** `HexByte` is the general two-digit zero-padded hex format. */
  lemma HexByteIsFormat(n: nat, upper: bool)
    requires n <= 255
    ensures HexByte(n, upper) == Format(n, 16, 2, upper)
  {
    DivMod(n, 16);
    if n < 16 {
      assert PadLeft(Digits(n, 16), 2) == [0, n];
    } else {
      QuotientBelow(n, 16);
      assert Digits(n, 16) == [n / 16, n % 16];
    }
  }

  /** `DecimalText` is the general unpadded decimal format. */
  lemma {:induction false} DecimalTextIsFormat(n: nat)
    ensures DecimalText(n) == Format(n, 10, 1, true)
    decreases n
  {
    if n >= 10 {
      DivMod(n, 10);
      DecimalTextIsFormat(n / 10);
      var hi := Digits(n / 10, 10);
      assert Digits(n, 10) == hi + [n % 10];
      assert PadLeft(hi, 1) == hi && PadLeft(hi + [n % 10], 1) == hi + [n % 10];
      SpellAppend(hi, n % 10, true);
    }
  }

  lemma SpellAppend(ds: seq<nat>, d: nat, upper: bool)
    requires AllBelow(ds, 16) && d < 16
    ensures AllBelow(ds + [d], 16)
    ensures Spell(ds + [d], upper) == Spell(ds, upper) + [DigitChar(d, upper)]
  {
    assert forall i :: 0 <= i < |ds| ==> (ds + [d])[i] == ds[i];
  }

  /** `str` writes decimal digits only, with no superfluous leading zero. */
  lemma DecimalTextShape(n: nat)
    ensures var s := DecimalText(n);
      (forall i :: 0 <= i < |s| ==> IsDigitChar(s[i], 10, true)) && (|s| > 1 ==> s[0] != '0')
  {
    DecimalTextIsFormat(n);
    FormatDigitChars(n, 10, 1, true);
    var ds := Digits(n, 10);
    assert PadLeft(ds, 1) == ds;
  }

  /** `#RRGGBB`, upper case as in the hex label, lower case as in the
      canvas fill strings. */
  function HexColor(c: Rgb, upper: bool): (s: string)
    requires IsRgb(c)
    ensures |s| == 7 && s[0] == '#'
  {
    "#" + HexByte(c.r, upper) + HexByte(c.g, upper) + HexByte(c.b, upper)
  }

  /** After the `#`, `HexColor` writes six hex digits in the chosen case. */
  lemma HexColorShape(c: Rgb, upper: bool)
    requires IsRgb(c)
    ensures var s := HexColor(c, upper);
      forall i :: 1 <= i < 7 ==> IsDigitChar(s[i], 16, upper)
  {
    var s := HexColor(c, upper);
    var ds := [c.r / 16, c.r % 16, c.g / 16, c.g % 16, c.b / 16, c.b % 16];
    forall i | 1 <= i < 7
      ensures IsDigitChar(s[i], 16, upper)
    {
      assert ds[i - 1] < 16 && s[i] == DigitChar(ds[i - 1], upper);
      DigitCharIsDigit(ds[i - 1], 16, upper);
    }
  }

  /** Reads `#RRGGBB` (hex digits in either case) back into a colour. */
  function DecodeHexColor(s: string): (c: Option<Rgb>)
    ensures c.Some? ==> IsRgb(c.value)
  {
    if |s| != 7 || s[0] != '#' then None
    else
      var pr, pg, pb := Parse(s[1..3], 16), Parse(s[3..5], 16), Parse(s[5..7], 16);
      if pr.Some? && pg.Some? && pb.Some? then
        var c := Rgb(pr.value, pg.value, pb.value);
        BelowByte(s[1..3], pr.value);
        BelowByte(s[3..5], pg.value);
        BelowByte(s[5..7], pb.value);
        Some(c)
      else None
  }

  /** A two-character hex numeral stands for a byte. */
  lemma BelowByte(s: string, n: nat)
    requires |s| == 2 && Parse(s, 16) == Some(n)
    ensures n <= 255
  {
    var ds := ReadDigits(s, 16).value;
    assert ds[..1][..0] == [];
    assert Value(ds[..1], 16) == ds[0];
    assert Value(ds, 16) == ds[0] * 16 + ds[1];
  }

  /** Every `#RRGGBB` string of a colour decodes to that colour. */
  lemma HexColorRoundTrip(c: Rgb, upper: bool)
    requires IsRgb(c)
    ensures DecodeHexColor(HexColor(c, upper)) == Some(c)
  {
    var s := HexColor(c, upper);
    var hr, hg, hb := HexByte(c.r, upper), HexByte(c.g, upper), HexByte(c.b, upper);
    assert s[1..3] == hr && s[3..5] == hg && s[5..7] == hb;
    HexByteIsFormat(c.r, upper);
    HexByteIsFormat(c.g, upper);
    HexByteIsFormat(c.b, upper);
    FormatRoundTrip(c.r, 16, 2, upper);
    FormatRoundTrip(c.g, 16, 2, upper);
    FormatRoundTrip(c.b, 16, 2, upper);
  }

  /** Conversely, every decodable `#RRGGBB` string whose letters are all in
      one case is the encoding of the colour it decodes to, so the encoding
      is a bijection between byte triples and such strings. */
  lemma HexColorOfDecoded(s: string, upper: bool)
    requires DecodeHexColor(s).Some?
    requires forall i :: 1 <= i < 7 ==> IsDigitChar(s[i], 16, upper)
    ensures HexColor(DecodeHexColor(s).value, upper) == s
  {
    var hr := HexPairOfParsed(s, 1, upper);
    var hg := HexPairOfParsed(s, 3, upper);
    var hb := HexPairOfParsed(s, 5, upper);
    assert DecodeHexColor(s) == Some(Rgb(hr, hg, hb));
    AssembleHex(s, hr, hg, hb, upper);
  }

  lemma AssembleHex(s: string, hr: nat, hg: nat, hb: nat, upper: bool)
    requires |s| == 7 && s[0] == '#' && IsRgb(Rgb(hr, hg, hb))
    requires HexByte(hr, upper) == s[1..3] && HexByte(hg, upper) == s[3..5] && HexByte(hb, upper) == s[5..7]
    ensures HexColor(Rgb(hr, hg, hb), upper) == s
  {
    assert s[..1] == "#";
    assert s == s[..1] + s[1..3] + s[3..5] + s[5..7];
  }

  /** The pair of hex digits at `k` is `HexByte` of the byte it stands for. */
  lemma HexPairOfParsed(s: string, k: nat, upper: bool) returns (n: nat)
    requires k + 2 <= |s|
    requires forall i :: k <= i < k + 2 ==> IsDigitChar(s[i], 16, upper)
    ensures Parse(s[k..k + 2], 16) == Some(n) && n <= 255 && HexByte(n, upper) == s[k..k + 2]
  {
    var p := s[k..k + 2];
    assert forall i :: 0 <= i < 2 ==> p[i] == s[k + i];
    FormatOfParsed(p, 16, upper);
    n := Parse(p, 16).value;
    BelowByte(p, n);
    HexByteIsFormat(n, upper);
  }

  /** The decimal fields read back as the channel values. */
  lemma DecimalRoundTrip(n: nat)
    ensures Parse(DecimalText(n), 10) == Some(n)
  {
    DecimalTextIsFormat(n);
    FormatRoundTrip(n, 10, 1, true);
  }

  /** A decimal numeral without a superfluous leading zero is what `str`
      writes for its value. */
  lemma DecimalOfParsed(s: string)
    requires 1 <= |s| && (|s| > 1 ==> s[0] != '0')
    requires forall i :: 0 <= i < |s| ==> IsDigitChar(s[i], 10, true)
    ensures Parse(s, 10).Some?
    ensures DecimalText(Parse(s, 10).value) == s
  {
    FormatOfParsed(s, 10, true);
    var n := Parse(s, 10).value;
    DecimalTextIsFormat(n);
    var ds := Digits(n, 10);
    assert PadLeft(ds, |s|) == ds;
    assert PadLeft(ds, 1) == ds;
  }

  /** The texts of white and of black. */
  lemma WhiteText()
    ensures HexColor(Rgb(255, 255, 255), true) == "#FFFFFF"
    ensures DecimalText(255) == "255"
  {
  }

  lemma BlackText()
    ensures HexColor(Rgb(0, 0, 0), true) == "#000000"
    ensures DecimalText(0) == "0"
  {
  }
}
