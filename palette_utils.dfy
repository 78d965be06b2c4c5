/** Colour helpers of the theme: hex strings to red/green/blue components and
    back, channel clamping, and alpha suffixes. Channels are integers here. */
module PaletteUtils {
  import opened Common
  import opened Presets

  /** `withAlpha`: appends the alpha suffix to a `#`-colour, leaves anything else alone. */
  function WithAlpha(hex: string, alpha: string): (r: string)
    ensures |hex| > 0 && hex[0] == '#' ==> r == hex + alpha
    ensures !(|hex| > 0 && hex[0] == '#') ==> r == hex
  {
    if |hex| > 0 && hex[0] == '#' then hex + alpha else hex
  }

  /** `clampHex`: `max(0, min(255, value))`. */
  function ClampHex(value: int): (c: int)
    ensures 0 <= c <= 255
    ensures 0 <= value <= 255 ==> c == value
    ensures value < 0 ==> c == 0
    ensures value > 255 ==> c == 255
  {
    if value < 0 then 0 else if value > 255 then 255 else value
  }

  /** `hex.replace('#', '')`: a string pattern replaces its first occurrence only. */
  function RemoveFirstHash(s: string): (r: string)
    ensures '#' !in s ==> r == s
    ensures '#' in s ==> |r| == |s| - 1
    ensures |s| > 0 && s[0] == '#' ==> r == s[1..]
  {
    if s == [] then []
    else if s[0] == '#' then s[1..]
    else [s[0]] + RemoveFirstHash(s[1..])
  }

  /** The character removed is the first '#', wherever it is, and the
      characters around it are kept in order. */
  lemma {:induction false} RemoveFirstHashFirst(s: string, i: int)
    requires 0 <= i < |s| && s[i] == '#' && '#' !in s[..i]
    ensures RemoveFirstHash(s) == s[..i] + s[i + 1..]
  {
    if i > 0 {
      assert s[0] in s[..i];
      assert s[1..][i - 1] == '#' && s[1..][..i - 1] == s[1..i];
      assert forall c :: c in s[1..i] ==> c in s[..i];
      RemoveFirstHashFirst(s[1..], i - 1);
      assert s[..i] + s[i + 1..] == [s[0]] + (s[1..][..i - 1] + s[1..][i..]);
    }
  }

  predicate IsHexDigit(c: char)
  {
    IsDigit(c) || 'a' <= c <= 'f' || 'A' <= c <= 'F'
  }

  predicate AllHex(s: string)
  {
    forall i :: 0 <= i < |s| ==> IsHexDigit(s[i])
  }

  function HexVal(c: char): (d: nat)
    requires IsHexDigit(c)
    ensures d < 16
  {
    if IsDigit(c) then c as int - '0' as int
    else if 'a' <= c <= 'f' then c as int - 'a' as int + 10
    else c as int - 'A' as int + 10
  }

  /** The lowercase digit `Number.prototype.toString(16)` writes for `d`. */
  function Digit(d: nat): (c: char)
    requires d < 16
    ensures IsHexDigit(c) && HexVal(c) == d && !IsUpper(c)
  {
    "0123456789abcdef"[d]
  }

  lemma DigitOfHexVal(c: char)
    requires IsHexDigit(c)
    ensures Digit(HexVal(c)) == ToLowerChar(c)
  {
  }

  function Pow16(n: nat): (p: nat)
    ensures p >= 1
  {
    if n == 0 then 1 else 16 * Pow16(n - 1)
  }

  /** `parseInt(s, 16)` on a string of hex digits. */
  function ParseHex(s: string): (v: nat)
    requires AllHex(s)
    ensures v < Pow16(|s|)
    decreases |s|
  {
    if s == [] then 0
    else
      var last := s[|s| - 1];
      ParseHex(s[..|s| - 1]) * 16 + HexVal(last)
  }

  lemma ParseHexTwo(s: string)
    requires |s| == 2 && AllHex(s)
    ensures ParseHex(s) == HexVal(s[0]) * 16 + HexVal(s[1])
  {
    assert s[..1] == [s[0]];
    assert s[..1][..0] == [];
  }

  /** Six hex digits are three channels of two digits, the first the highest. */
  lemma ParseHexSix(s: string)
    requires |s| == 6 && AllHex(s)
    ensures ParseHex(s) == (HexVal(s[0]) * 16 + HexVal(s[1])) * 65536
                         + (HexVal(s[2]) * 16 + HexVal(s[3])) * 256
                         + (HexVal(s[4]) * 16 + HexVal(s[5]))
  {
    var h0, h1, h2, h3, h4, h5 := HexVal(s[0]), HexVal(s[1]), HexVal(s[2]), HexVal(s[3]), HexVal(s[4]), HexVal(s[5]);
    assert s[..1][..0] == [] && s[..1][0] == s[0];
    assert s[..2][..1] == s[..1] && s[..2][1] == s[1];
    assert s[..3][..2] == s[..2] && s[..3][2] == s[2];
    assert s[..4][..3] == s[..3] && s[..4][3] == s[3];
    assert s[..5][..4] == s[..4] && s[..5][4] == s[4];
    assert s[..5] == s[..|s| - 1];
    assert ParseHex(s[..1]) == h0;
    assert ParseHex(s[..2]) == h0 * 16 + h1;
    assert ParseHex(s[..3]) == (h0 * 16 + h1) * 16 + h2;
    assert ParseHex(s[..4]) == ((h0 * 16 + h1) * 16 + h2) * 16 + h3;
    assert ParseHex(s[..5]) == (((h0 * 16 + h1) * 16 + h2) * 16 + h3) * 16 + h4;
    assert ParseHex(s) == ((((h0 * 16 + h1) * 16 + h2) * 16 + h3) * 16 + h4) * 16 + h5;
  }

  /** Each character written twice: the 3-digit shorthand expansion. */
  function DoubleEach(s: string): (r: string)
    ensures |r| == 2 * |s|
    ensures forall j :: 0 <= j < |r| ==> r[j] == s[j / 2]
  {
    if s == [] then []
    else
      var rest := DoubleEach(s[1..]);
      assert forall j :: 2 <= j < 2 * |s| ==> ([s[0], s[0]] + rest)[j] == rest[j - 2] && (j - 2) / 2 == j / 2 - 1;
      [s[0], s[0]] + rest
  }

  datatype Rgb = Rgb(r: int, g: int, b: int)

  /** A string `hexToRgb` parses: after dropping the first '#', a string of
      length 3 or 6 must consist of hex digits (`parseInt` is not modelled
      on anything else). */
  predicate Parsable(hex: string)
  {
    var clean := RemoveFirstHash(hex);
    (|clean| == 3 || |clean| == 6) ==> AllHex(clean)
  }

  /** `hexToRgb` */
  function HexToRgb(hex: string): (c: Rgb)
    requires Parsable(hex)
    ensures 0 <= c.r <= 255 && 0 <= c.g <= 255 && 0 <= c.b <= 255
    ensures var clean := RemoveFirstHash(hex); |clean| != 3 && |clean| != 6 ==> c == Rgb(0, 0, 0)
  {
    var clean := RemoveFirstHash(hex);
    if |clean| != 3 && |clean| != 6 then Rgb(0, 0, 0)
    else
      var normalized := if |clean| == 3 then DoubleEach(clean) else clean;
      assert AllHex(normalized);
      var v := ParseHex(normalized);
      Rgb((v / 65536) % 256, (v / 256) % 256, v % 256)
  }

  /** `n.toString(16)` for a natural number: lowercase, no leading zeros. */
  function ToBase16(n: nat): (s: string)
    ensures |s| >= 1
    decreases n
  {
    if n < 16 then [Digit(n)] else ToBase16(n / 16) + [Digit(n % 16)]
  }

  /** `n.toString(16)` is the base-16 numeral of `n`: lowercase hex digits,
      without a leading zero, that `parseInt(_, 16)` reads back as `n`. */
  lemma {:induction false} ToBase16Parses(n: nat)
    ensures var s := ToBase16(n);
      && AllHex(s) && ParseHex(s) == n
      && (forall i :: 0 <= i < |s| ==> !IsUpper(s[i]))
      && (n > 0 ==> s[0] != '0')
    decreases n
  {
    if n >= 16 {
      ToBase16Parses(n / 16);
      var high := ToBase16(n / 16);
      assert (high + [Digit(n % 16)])[..|high|] == high;
    }
  }

  /** `s.padStart(width, fill)` for a one-character fill. */
  function PadStart(s: string, width: nat, fill: char): (r: string)
    ensures |r| == if |s| >= width then |s| else width
  {
    if |s| >= width then s else seq(width - |s|, _ => fill) + s
  }

  /** Padding only adds fill characters in front: the input is the suffix. */
  lemma PadStartKeeps(s: string, width: nat, fill: char)
    ensures var r := PadStart(s, width, fill);
      && r[|r| - |s|..] == s
      && forall i :: 0 <= i < |r| - |s| ==> r[i] == fill
  {
  }

  function Hex2(channel: int): string
  {
    PadStart(ToBase16(ClampHex(channel)), 2, '0')
  }

  /** `rgbToHex` */
  function RgbToHex(r: int, g: int, b: int): (s: string)
    ensures |s| == 7 && s[0] == '#'
    ensures var x, y, z := ClampHex(r), ClampHex(g), ClampHex(b);
      s[1..] == [Digit(x / 16), Digit(x % 16), Digit(y / 16), Digit(y % 16), Digit(z / 16), Digit(z % 16)]
  {
    var h1, h2, h3 := Hex2(r), Hex2(g), Hex2(b);
    Hex2Digits(r);
    Hex2Digits(g);
    Hex2Digits(b);
    assert ("#" + h1 + h2 + h3)[1..] == h1 + h2 + h3;
    "#" + h1 + h2 + h3
  }

  /** A clamped channel is written as exactly two lowercase digits, the high
      nibble first. */
  lemma Hex2Digits(channel: int)
    ensures var n := ClampHex(channel);
      Hex2(channel) == [Digit(n / 16), Digit(n % 16)]
  {
    var n := ClampHex(channel);
    if n >= 16 {
      assert ToBase16(n / 16) == [Digit(n / 16)];
    }
  }

  /** The output is '#' followed by exactly six lowercase hex digits. */
  lemma RgbToHexShape(r: int, g: int, b: int)
    ensures var s := RgbToHex(r, g, b);
      && |s| == 7 && s[0] == '#'
      && forall i :: 1 <= i < 7 ==> IsHexDigit(s[i]) && !IsUpper(s[i])
  {
    Hex2Digits(r);
    Hex2Digits(g);
    Hex2Digits(b);
  }

  lemma ParseHex2(channel: int)
    ensures AllHex(Hex2(channel)) && ParseHex(Hex2(channel)) == ClampHex(channel)
  {
    Hex2Digits(channel);
    ParseHexTwo(Hex2(channel));
  }

  /** Three channel values packed as six hex digits unpack to those values. */
  lemma Unpack(x: nat, y: nat, z: nat, v: nat)
    requires x < 256 && y < 256 && z < 256 && v == x * 65536 + y * 256 + z
    ensures (v / 65536) % 256 == x && (v / 256) % 256 == y && v % 256 == z
  {
    assert v / 65536 == x;
    assert v / 256 == x * 256 + y;
    assert (x * 256 + y) % 256 == y;
  }

  /** The digits `rgbToHex` writes, with the '#' dropped again. */
  lemma CleanedRgbHex(r: int, g: int, b: int)
    ensures var x, y, z := ClampHex(r), ClampHex(g), ClampHex(b);
      RemoveFirstHash(RgbToHex(r, g, b)) == [Digit(x / 16), Digit(x % 16), Digit(y / 16), Digit(y % 16), Digit(z / 16), Digit(z % 16)]
  {
    Hex2Digits(r);
    Hex2Digits(g);
    Hex2Digits(b);
  }

  lemma ParseChannels(x: nat, y: nat, z: nat)
    requires x < 256 && y < 256 && z < 256
    ensures var s := [Digit(x / 16), Digit(x % 16), Digit(y / 16), Digit(y % 16), Digit(z / 16), Digit(z % 16)];
      AllHex(s) && ParseHex(s) == x * 65536 + y * 256 + z
  {
    var s := [Digit(x / 16), Digit(x % 16), Digit(y / 16), Digit(y % 16), Digit(z / 16), Digit(z % 16)];
    ParseHexSix(s);
  }

  /** `hexToRgb(rgbToHex(r, g, b))` recovers the clamped channels. */
  lemma RoundTripFromRgb(r: int, g: int, b: int)
    ensures Parsable(RgbToHex(r, g, b))
    ensures HexToRgb(RgbToHex(r, g, b)) == Rgb(ClampHex(r), ClampHex(g), ClampHex(b))
  {
    var x, y, z := ClampHex(r), ClampHex(g), ClampHex(b);
    CleanedRgbHex(r, g, b);
    ParseChannels(x, y, z);
    var clean := RemoveFirstHash(RgbToHex(r, g, b));
    Unpack(x, y, z, ParseHex(clean));
  }

  /** Two hex digits parse to a channel that is written back as the same
      digits in lowercase. */
  lemma Hex2OfParsed(s: string)
    requires |s| == 2 && AllHex(s)
    ensures ParseHex(s) < 256 && Hex2(ParseHex(s)) == ToLower(s)
  {
    ParseHexTwo(s);
    var n := ParseHex(s);
    assert n / 16 == HexVal(s[0]) && n % 16 == HexVal(s[1]);
    Hex2Digits(n);
    DigitOfHexVal(s[0]);
    DigitOfHexVal(s[1]);
  }

  /** A six-digit string parses to the three two-digit channels it holds. */
  lemma SplitChannels(digits: string)
    requires |digits| == 6 && AllHex(digits)
    ensures AllHex(digits[..2]) && AllHex(digits[2..4]) && AllHex(digits[4..])
    ensures ParseHex(digits) == ParseHex(digits[..2]) * 65536 + ParseHex(digits[2..4]) * 256 + ParseHex(digits[4..])
  {
    ParseHexSix(digits);
    ParseHexTwo(digits[..2]);
    ParseHexTwo(digits[2..4]);
    ParseHexTwo(digits[4..]);
  }

  /** For a six-digit colour, `rgbToHex(hexToRgb(h))` is `h` in lowercase. */
  lemma RoundTripFromHex(digits: string)
    requires |digits| == 6 && AllHex(digits)
    ensures Parsable("#" + digits)
    ensures var c := HexToRgb("#" + digits); RgbToHex(c.r, c.g, c.b) == "#" + ToLower(digits)
  {
    assert RemoveFirstHash("#" + digits) == digits;
    var a, b, c := digits[..2], digits[2..4], digits[4..];
    SplitChannels(digits);
    Hex2OfParsed(a);
    Hex2OfParsed(b);
    Hex2OfParsed(c);
    Unpack(ParseHex(a), ParseHex(b), ParseHex(c), ParseHex(digits));
    assert HexToRgb("#" + digits) == Rgb(ParseHex(a), ParseHex(b), ParseHex(c));
    LowerOfChannels(digits);
  }

  /** Lowercasing six digits lowercases each of their three channels. */
  lemma LowerOfChannels(digits: string)
    requires |digits| == 6
    ensures ToLower(digits) == ToLower(digits[..2]) + ToLower(digits[2..4]) + ToLower(digits[4..])
  {
    assert digits == digits[..2] + digits[2..4] + digits[4..];
  }

  /** The 3-digit shorthand parses as its doubled 6-digit form: "#abc" is "#aabbcc". */
  lemma ShorthandDoubles(x: char, y: char, z: char)
    requires IsHexDigit(x) && IsHexDigit(y) && IsHexDigit(z)
    ensures Parsable(['#', x, y, z]) && Parsable(['#', x, x, y, y, z, z])
    ensures HexToRgb(['#', x, y, z]) == HexToRgb(['#', x, x, y, y, z, z])
  {
    assert RemoveFirstHash(['#', x, y, z]) == [x, y, z];
    assert RemoveFirstHash(['#', x, x, y, y, z, z]) == [x, x, y, y, z, z];
    var d := DoubleEach([x, y, z]);
    assert d[0] == x && d[1] == x && d[2] == y && d[3] == y && d[4] == z && d[5] == z;
    assert d == [x, x, y, y, z, z];
  }

  /** Anything whose cleaned length is not 3 or 6 is black. */
  lemma WrongLengthIsBlack()
    ensures HexToRgb("#abcd") == Rgb(0, 0, 0)
  {
    assert RemoveFirstHash("#abcd") == "abcd";
  }

  /** `CustomColors`: only the first accent is required. */
  datatype CustomColors = CustomColors(accent: string, accent2: Option<string>, accent3: Option<string>)

  /** `buildPaletteFromCustom`, over the colour mixer `mix(a, b, ratio)`,
      which works on floating-point channels and is a parameter here. Every
      missing or empty colour falls back as in the source. */
  function BuildPaletteFromCustom(colors: CustomColors, mix: (string, string, real) -> string): (p: PaletteValues)
    ensures colors.accent != "" ==> p.accent == colors.accent
    ensures colors.accent == "" ==> p.accent == "#2563eb"
    ensures colors.accent2.Some? && colors.accent2.value != "" ==> p.accent2 == colors.accent2.value
    ensures !(colors.accent2.Some? && colors.accent2.value != "") ==> p.accent2 == mix(p.accent, "#ffffff", 0.8)
    ensures colors.accent3.Some? && colors.accent3.value != "" ==> p.accent3 == colors.accent3
    ensures !(colors.accent3.Some? && colors.accent3.value != "") ==> p.accent3 == Some(mix(p.accent2, "#ffffff", 0.6))
    ensures p.bg1 == mix(p.accent, "#0a0b0f", 0.12) && p.bg2 == mix(p.accent2, "#131722", 0.2)
    ensures p.muted == "rgba(255,255,255,0.78)"
  {
    var accent := OrElse(Some(colors.accent), "#2563eb");
    var accent2 := OrElse(colors.accent2, mix(accent, "#ffffff", 0.8));
    var accent3 := OrElse(colors.accent3, mix(accent2, "#ffffff", 0.6));
    PaletteValues(accent, accent2, Some(accent3), mix(accent, "#0a0b0f", 0.12), mix(accent2, "#131722", 0.2), "rgba(255,255,255,0.78)")
  }
}
