/** Positional numerals: the digit strings that Python's `str(n)` and
    `format(n, "02X")` / `format(n, "02x")` produce for a non-negative
    integer, and the parser that reads them back. */
module Numerals {

  datatype Option<T> = None | Some(value: T)

  /** The value of a digit sequence, most significant digit first. */
  function Value(ds: seq<nat>, base: nat): nat
    decreases |ds|
  {
    if ds == [] then 0 else Value(ds[..|ds| - 1], base) * base + ds[|ds| - 1]
  }

  predicate AllBelow(ds: seq<nat>, base: nat)
  {
    forall i :: 0 <= i < |ds| ==> ds[i] < base
  }

  /** The shortest digit sequence of `n`: at least one digit, and no leading
      zero unless `n` itself is zero. */
  function Digits(n: nat, base: nat): (ds: seq<nat>)
    requires 2 <= base
    ensures 1 <= |ds|
    ensures AllBelow(ds, base)
    ensures Value(ds, base) == n
    ensures |ds| > 1 ==> ds[0] != 0
    decreases n
  {
    if n < base then [n]
    else
      DivMod(n, base);
      var hi := Digits(n / base, base);
      ValueAppend(hi, n % base, base);
      hi + [n % base]
  }

  function Zeros(k: nat): (z: seq<nat>)
  {
    seq(k, _ => 0)
  }

  /** Zero-padding on the left up to `width` digits, as the `0` flag of a
      Python format specification does. */
  function PadLeft(ds: seq<nat>, width: nat): seq<nat>
  {
    if |ds| < width then Zeros(width - |ds|) + ds else ds
  }

  /** The character of a digit below sixteen; letters in the chosen case. */
  function DigitChar(d: nat, upper: bool): char
    requires d < 16
  {
    if d < 10 then ('0' as int + d) as char
    else ((if upper then 'A' else 'a') as int + d - 10) as char
  }

  /** The digit a character stands for, in either letter case. */
  function CharDigit(c: char): Option<nat>
  {
    if '0' <= c <= '9' then Some(c as int - '0' as int)
    else if 'A' <= c <= 'F' then Some(c as int - 'A' as int + 10)
    else if 'a' <= c <= 'f' then Some(c as int - 'a' as int + 10)
    else None
  }

  predicate IsDigitChar(c: char, base: nat, upper: bool)
  {
    CharDigit(c).Some? && CharDigit(c).value < base &&
    (upper ==> !('a' <= c <= 'f')) && (!upper ==> !('A' <= c <= 'F'))
  }

  /** The character of a digit of `base` is a digit character of `base`. */
  lemma DigitCharIsDigit(d: nat, base: nat, upper: bool)
    requires d < base <= 16
    ensures CharDigit(DigitChar(d, upper)) == Some(d)
    ensures IsDigitChar(DigitChar(d, upper), base, upper)
  {
  }

  function Spell(ds: seq<nat>, upper: bool): (s: string)
    requires AllBelow(ds, 16)
    ensures |s| == |ds|
    ensures forall i :: 0 <= i < |s| ==> s[i] == DigitChar(ds[i], upper)
  {
    if ds == [] then "" else [DigitChar(ds[0], upper)] + Spell(ds[1..], upper)
  }

  /** `n` written in `base`, zero-padded to at least `width` characters. */
  function Format(n: nat, base: nat, width: nat, upper: bool): (s: string)
    requires 2 <= base <= 16
    ensures |s| == if |Digits(n, base)| < width then width else |Digits(n, base)|
  {
    var ds := PadLeft(Digits(n, base), width);
    assert AllBelow(ds, 16);
    Spell(ds, upper)
  }

  /** Every character `Format` writes is a digit of `base` in the chosen
      letter case. */
  lemma FormatDigitChars(n: nat, base: nat, width: nat, upper: bool)
    requires 2 <= base <= 16
    ensures var s := Format(n, base, width, upper);
      forall i :: 0 <= i < |s| ==> IsDigitChar(s[i], base, upper)
  {
    var ds := PadLeft(Digits(n, base), width);
    assert AllBelow(ds, base);
    var s := Spell(ds, upper);
    forall i | 0 <= i < |s|
      ensures IsDigitChar(s[i], base, upper)
    {
      DigitCharIsDigit(ds[i], base, upper);
    }
  }

  function ReadDigits(s: string, base: nat): (r: Option<seq<nat>>)
    ensures r.Some? ==> |r.value| == |s| && AllBelow(r.value, base)
  {
    if s == [] then Some([])
    else
      match CharDigit(s[0])
      case None => None
      case Some(d) =>
        if d < base then
          match ReadDigits(s[1..], base)
          case None => None
          case Some(rest) => Some([d] + rest)
        else None
  }

  /** Reads a non-empty string of digits of `base` (either letter case). */
  function Parse(s: string, base: nat): Option<nat>
  {
    if s == [] then None
    else
      match ReadDigits(s, base)
      case None => None
      case Some(ds) => Some(Value(ds, base))
  }

  lemma {:induction false} ReadSpelled(ds: seq<nat>, base: nat, upper: bool)
    requires base <= 16 && AllBelow(ds, base)
    ensures ReadDigits(Spell(ds, upper), base) == Some(ds)
  {
    if ds != [] {
      ReadSpelled(ds[1..], base, upper);
      assert Spell(ds, upper)[1..] == Spell(ds[1..], upper);
      assert [ds[0]] + ds[1..] == ds;
    }
  }

  lemma {:induction false} ValueAppend(ds: seq<nat>, d: nat, base: nat)
    ensures Value(ds + [d], base) == Value(ds, base) * base + d
  {
    assert (ds + [d])[..|ds|] == ds;
  }

  lemma {:induction false} ValueZeros(k: nat, base: nat)
    ensures Value(Zeros(k), base) == 0
  {
    if k > 0 {
      assert Zeros(k)[..k - 1] == Zeros(k - 1);
      ValueZeros(k - 1, base);
    }
  }

  /** Leading zeros do not change the value of a numeral. */
  lemma {:induction false} ValueLeadingZeros(k: nat, ds: seq<nat>, base: nat)
    ensures Value(Zeros(k) + ds, base) == Value(ds, base)
    decreases |ds|
  {
    if ds == [] {
      assert Zeros(k) + ds == Zeros(k);
      ValueZeros(k, base);
    } else {
      var init := ds[..|ds| - 1];
      var last := ds[|ds| - 1];
      assert ds == init + [last];
      assert Zeros(k) + ds == (Zeros(k) + init) + [last];
      ValueAppend(Zeros(k) + init, last, base);
      ValueAppend(init, last, base);
      ValueLeadingZeros(k, init, base);
    }
  }

  /** Parsing what `Format` wrote gives back the number, whatever the
      padding width and letter case. */
  lemma FormatRoundTrip(n: nat, base: nat, width: nat, upper: bool)
    requires 2 <= base <= 16
    ensures Parse(Format(n, base, width, upper), base) == Some(n)
  {
    var ds := Digits(n, base);
    var padded := PadLeft(ds, width);
    assert AllBelow(padded, base);
    ReadSpelled(padded, base, upper);
    if |ds| < width {
      ValueLeadingZeros(width - |ds|, ds, base);
    }
  }

  /** A zero value means every digit is zero. */
  lemma {:induction false} ZeroValueDigits(ds: seq<nat>, base: nat)
    requires 2 <= base && Value(ds, base) == 0
    ensures ds == Zeros(|ds|)
    decreases |ds|
  {
    if ds != [] {
      var init := ds[..|ds| - 1];
      assert Value(init, base) * base + ds[|ds| - 1] == 0;
      ZeroValueDigits(init, base);
      assert ds == init + [ds[|ds| - 1]];
      assert Zeros(|ds|) == Zeros(|init|) + [0];
    }
  }

  /** Formatting the value of a `width`-digit numeral to `width` characters
      spells that very numeral: leading zeros come back as padding. */
  lemma {:induction false} PadDigitsOfValue(ds: seq<nat>, base: nat)
    requires 2 <= base && 1 <= |ds| && AllBelow(ds, base)
    ensures PadLeft(Digits(Value(ds, base), base), |ds|) == ds
    decreases |ds|
  {
    var init := ds[..|ds| - 1];
    var last := ds[|ds| - 1];
    var v := Value(ds, base);
    assert ds == init + [last];
    if Value(init, base) == 0 {
      assert v == last;
      ZeroValueDigits(init, base);
      assert Zeros(|ds| - 1) == init;
    } else {
      assert |init| >= 1;
      var vi := Value(init, base);
      assert v == vi * base + last;
      DivModOf(vi, last, base);
      AtLeastOnce(vi, base);
      var hi := Digits(vi, base);
      assert Digits(v, base) == hi + [last];
      PadDigitsOfValue(init, base);
      assert |hi| <= |init|;
      PadAppend(hi, last, |init|);
    }
  }

  lemma PadAppend(hi: seq<nat>, d: nat, width: nat)
    requires |hi| <= width
    ensures PadLeft(hi + [d], width + 1) == PadLeft(hi, width) + [d]
  {
    if |hi| < width {
      assert Zeros(width + 1 - |hi + [d]|) + (hi + [d]) == (Zeros(width - |hi|) + hi) + [d];
    }
  }

  /** A non-empty digit string in the chosen letter case is exactly what
      `Format` writes for its value at its own width. */
  lemma FormatOfParsed(s: string, base: nat, upper: bool)
    requires 2 <= base <= 16 && 1 <= |s|
    requires forall i :: 0 <= i < |s| ==> IsDigitChar(s[i], base, upper)
    ensures Parse(s, base).Some?
    ensures Format(Parse(s, base).value, base, |s|, upper) == s
  {
    var ds := ReadAll(s, base, upper);
    PadDigitsOfValue(ds, base);
    var f := Format(Value(ds, base), base, |s|, upper);
    assert |f| == |s|;
    forall i | 0 <= i < |s| ensures f[i] == s[i] {
      assert f[i] == DigitChar(ds[i], upper);
      CharOfDigit(s[i], upper);
    }
  }

  /** The digits read from a well-formed digit string, each the one its
      character stands for. */
  lemma {:induction false} ReadAll(s: string, base: nat, upper: bool) returns (ds: seq<nat>)
    requires forall i :: 0 <= i < |s| ==> IsDigitChar(s[i], base, upper)
    ensures ReadDigits(s, base) == Some(ds)
    ensures |ds| == |s|
    ensures forall i :: 0 <= i < |s| ==> CharDigit(s[i]) == Some(ds[i])
  {
    if s == [] {
      ds := [];
    } else {
      var rest := ReadAll(s[1..], base, upper);
      ds := [CharDigit(s[0]).value] + rest;
      forall i | 0 <= i < |s| ensures CharDigit(s[i]) == Some(ds[i]) {
        if i > 0 {
          assert s[i] == s[1..][i - 1];
        }
      }
    }
  }

  /** Within one letter case, a digit character is the spelling of its digit. */
  lemma CharOfDigit(c: char, upper: bool)
    requires CharDigit(c).Some? && CharDigit(c).value < 16
    requires (upper ==> !('a' <= c <= 'f')) && (!upper ==> !('A' <= c <= 'F'))
    ensures DigitChar(CharDigit(c).value, upper) == c
  {
  }

  /** Euclidean division of a natural number by a base of at least two. */
  lemma DivMod(n: nat, base: nat)
    requires 2 <= base
    ensures n == (n / base) * base + n % base && n % base < base
    ensures n >= base ==> 1 <= n / base < n
  {
    if n >= base {
      var q := n / base;
      var r := n % base;
      assert q * base == n - r > 0;
      PositiveFactor(q, base);
      MulMono(2, base, q);
    }
  }

  lemma PositiveFactor(q: int, b: nat)
    requires 0 <= q && q * b > 0
    ensures 1 <= q
  {
  }

  lemma MulMono(a: int, b: int, k: nat)
    requires a <= b
    ensures a * k <= b * k
  {
  }

  lemma DivModOf(q: nat, r: nat, base: nat)
    requires 2 <= base && r < base
    ensures (q * base + r) / base == q && (q * base + r) % base == r
  {
    var n := q * base + r;
    DivMod(n, base);
    var q' := n / base;
    var r' := n % base;
    assert (q - q') * base == r' - r;
    if q > q' {
      AtLeastOnce(q - q', base);
    } else if q < q' {
      AtLeastOnce(q' - q, base);
    }
  }

  lemma QuotientBelow(n: nat, base: nat)
    requires 2 <= base && n < base * base
    ensures n / base < base
  {
    DivMod(n, base);
  }

  lemma AtLeastOnce(k: int, b: nat)
    requires 1 <= k
    ensures k * b >= b
  {
  }
}
