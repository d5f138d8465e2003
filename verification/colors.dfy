/**
 * The colour value type of the current generation (`TRSColor`): a packed
 * `0xRRGGBB` integer with a name, a RAL reference code and an opacity.
 * Swift's `Double`/`CGFloat` are modelled as `real`; `UInt(x)` of a
 * non-negative double truncates, which is `Floor` here.
 */
module Colors {
  import opened Wrappers
  import opened Hex
  import opened Arith

  /** Swift's 64-bit `UInt`. */
  type UInt = n: nat | n < 0x1_0000_0000_0000_0000

  type Byte = n: nat | n < 0x100

  datatype TRSColor = TRSColor(name: string, ral: string, hex: UInt, opacity: real)

  /** Normalised colour components, as handed to the host's sRGB colour. */
  datatype RGBA = RGBA(red: real, green: real, blue: real, alpha: real)

  /** `TRSColor(name:hex:)` with the initialiser's defaults: RAL "n/a", opacity 1.0. */
  function Make(name: string, hex: UInt): TRSColor {
    TRSColor(name, "n/a", hex, 1.0)
  }

  /** `(hex >> 16) & 0xFF` */
  function Red(hex: nat): Byte { (hex / 0x1_0000) % 0x100 }

  /** `(hex >> 8) & 0xFF` */
  function Green(hex: nat): Byte { (hex / 0x100) % 0x100 }

  /** `hex & 0xFF` */
  function Blue(hex: nat): Byte { hex % 0x100 }

  /**
   * `(r << 16) | (g << 8) | b`. The three bytes occupy disjoint bits, so the
   * bitwise or is a sum.
   */
  function Pack(r: Byte, g: Byte, b: Byte): (hex: nat)
    ensures hex < 0x100_0000
    ensures Red(hex) == r && Green(hex) == g && Blue(hex) == b
  {
    r * 0x1_0000 + g * 0x100 + b
  }

  /** Repacking the three decoded bytes keeps exactly the low 24 bits. */
  lemma PackUnpack(hex: nat)
    ensures Pack(Red(hex), Green(hex), Blue(hex)) == hex % 0x100_0000
  {
    var q := hex / 0x100_0000;
    var lo := hex % 0x100_0000;
    var r := lo / 0x1_0000;
    var m := lo % 0x1_0000;
    var g := m / 0x100;
    var b := m % 0x100;
    DivModUnique(hex, 0x100, q * 0x1_0000 + r * 0x100 + g, b);
    DivModUnique(hex, 0x1_0000, q * 0x100 + r, m);
    DivModUnique(q * 0x1_0000 + r * 0x100 + g, 0x100, q * 0x100 + r, g);
    DivModUnique(q * 0x100 + r, 0x100, q, r);
  }

  /**
   * The components the initialiser hands to the host: each byte divided by
   * 255, and the opacity as alpha.
   */
  function Components(c: TRSColor): (rgba: RGBA)
    ensures 0.0 <= rgba.red <= 1.0 && 0.0 <= rgba.green <= 1.0 && 0.0 <= rgba.blue <= 1.0
    ensures rgba.alpha == c.opacity
    ensures ComponentByte(rgba.red) == Red(c.hex)
    ensures ComponentByte(rgba.green) == Green(c.hex)
    ensures ComponentByte(rgba.blue) == Blue(c.hex)
  {
    RGBA(Red(c.hex) as real / 255.0, Green(c.hex) as real / 255.0, Blue(c.hex) as real / 255.0, c.opacity)
  }

  /** Reads a byte back from a normalised component. */
  function ComponentByte(x: real): int {
    (x * 255.0).Floor
  }

  /** Decoding the components and reading the bytes back recovers the low 24 bits of `hex`. */
  lemma ComponentsRoundTrip(c: TRSColor)
    ensures var rgba := Components(c);
      Pack(ComponentByte(rgba.red), ComponentByte(rgba.green), ComponentByte(rgba.blue)) == c.hex % 0x100_0000
  {
    PackUnpack(c.hex);
  }

  /** `withOpacity(_:)`: the same colour with its opacity replaced. */
  function WithOpacity(c: TRSColor, opacity: real): (r: TRSColor)
    ensures r.name == c.name && r.ral == c.ral && r.hex == c.hex
    ensures r.opacity == opacity
  {
    TRSColor(c.name, c.ral, c.hex, opacity)
  }

  /** Replacing the opacity twice keeps only the second value. */
  lemma WithOpacityLastWins(c: TRSColor, x: real, y: real)
    ensures WithOpacity(WithOpacity(c, x), y) == WithOpacity(c, y)
    ensures WithOpacity(c, c.opacity) == c
  {
  }

  /** `max(0, min(1, ratio))` */
  function Clamp(ratio: real): (t: real)
    ensures 0.0 <= t <= 1.0
    ensures 0.0 <= ratio <= 1.0 ==> t == ratio
    ensures ratio <= 0.0 ==> t == 0.0
    ensures ratio >= 1.0 ==> t == 1.0
  {
    if ratio < 0.0 then 0.0 else if ratio > 1.0 then 1.0 else ratio
  }

  /** `x * (1 - t) + y * t` */
  function Lerp(x: real, y: real, t: real): real {
    x * (1.0 - t) + y * t
  }

  predicate Between(v: real, x: real, y: real) {
    (x <= v <= y) || (y <= v <= x)
  }

  lemma LerpBetween(x: real, y: real, t: real)
    requires 0.0 <= t <= 1.0
    ensures Between(Lerp(x, y, t), x, y)
  {
    assert Lerp(x, y, t) == x + (y - x) * t;
    if x <= y {
      MulUnit(y - x, t);
    } else {
      MulUnit(x - y, t);
      assert (y - x) * t == -((x - y) * t);
    }
  }

  lemma LerpSame(x: real, t: real)
    ensures Lerp(x, x, t) == x
  {
    assert x * (1.0 - t) + x * t == x * ((1.0 - t) + t);
  }

  /** One blended channel: the interpolated value, truncated to an integer. */
  function BlendChannel(x: Byte, y: Byte, t: real): (v: Byte)
    requires 0.0 <= t <= 1.0
    ensures Between(v as real, x as real, y as real)
    ensures (v as real) <= Lerp(x as real, y as real, t) < (v as real) + 1.0
  {
    var l := Lerp(x as real, y as real, t);
    LerpBetween(x as real, y as real, t);
    assert (if x <= y then x else y) <= l.Floor <= (if x <= y then y else x);
    l.Floor
  }

  /** `blend(with:ratio:)`, whose ratio defaults to one half. */
  function Blend(a: TRSColor, b: TRSColor, ratio: real := 0.5): (r: TRSColor)
    ensures r.name == a.name + " x " + b.name
    ensures r.ral == "n/a"
    ensures r.hex < 0x100_0000
    ensures Between(r.opacity, a.opacity, b.opacity)
  {
    var t := Clamp(ratio);
    LerpBetween(a.opacity, b.opacity, t);
    var red := BlendChannel(Red(a.hex), Red(b.hex), t);
    var green := BlendChannel(Green(a.hex), Green(b.hex), t);
    var blue := BlendChannel(Blue(a.hex), Blue(b.hex), t);
    TRSColor(a.name + " x " + b.name, "n/a", Pack(red, green, blue), Lerp(a.opacity, b.opacity, t))
  }

  /** The ratio is clamped first: anything at or below 0 acts as 0, anything at or above 1 acts as 1. */
  lemma BlendClampsRatio(a: TRSColor, b: TRSColor, ratio: real)
    ensures ratio <= 0.0 ==> Blend(a, b, ratio) == Blend(a, b, 0.0)
    ensures ratio >= 1.0 ==> Blend(a, b, ratio) == Blend(a, b, 1.0)
  {
  }

  /**
   * Every channel of a blend lies between the corresponding channels of the
   * two inputs, and the opacity is the interpolation of the two opacities.
   */
  lemma BlendChannelsBetween(a: TRSColor, b: TRSColor, ratio: real)
    ensures var r := Blend(a, b, ratio);
      && Between(Red(r.hex) as real, Red(a.hex) as real, Red(b.hex) as real)
      && Between(Green(r.hex) as real, Green(a.hex) as real, Green(b.hex) as real)
      && Between(Blue(r.hex) as real, Blue(a.hex) as real, Blue(b.hex) as real)
      && r.opacity == Lerp(a.opacity, b.opacity, Clamp(ratio))
  {
  }

  /**
   * Each channel of a blend is the interpolation of the inputs' channels at
   * the clamped ratio, truncated to an integer.
   */
  lemma BlendChannelsTruncateLerp(a: TRSColor, b: TRSColor, ratio: real)
    ensures var r, t := Blend(a, b, ratio), Clamp(ratio);
      && (Red(r.hex) as real) <= Lerp(Red(a.hex) as real, Red(b.hex) as real, t) < (Red(r.hex) as real) + 1.0
      && (Green(r.hex) as real) <= Lerp(Green(a.hex) as real, Green(b.hex) as real, t) < (Green(r.hex) as real) + 1.0
      && (Blue(r.hex) as real) <= Lerp(Blue(a.hex) as real, Blue(b.hex) as real, t) < (Blue(r.hex) as real) + 1.0
  {
  }

  /** At ratio 0 the blend keeps the receiver's colour and opacity, at ratio 1 the argument's. */
  lemma BlendBoundaries(a: TRSColor, b: TRSColor)
    ensures Blend(a, b, 0.0).hex == a.hex % 0x100_0000
    ensures Blend(a, b, 0.0).opacity == a.opacity
    ensures Blend(a, b, 1.0).hex == b.hex % 0x100_0000
    ensures Blend(a, b, 1.0).opacity == b.opacity
  {
    PackUnpack(a.hex);
    PackUnpack(b.hex);
  }

  /**
   * Blending a colour with itself keeps its colour and opacity for every
   * ratio, but not its name or RAL code: the result is called "N x N".
   */
  lemma BlendWithSelf(c: TRSColor, ratio: real)
    requires c.hex < 0x100_0000
    ensures Blend(c, c, ratio).hex == c.hex
    ensures Blend(c, c, ratio).opacity == c.opacity
    ensures Blend(c, c, ratio) != c
  {
    var t := Clamp(ratio);
    var r := Blend(c, c, ratio);
    assert r.hex == c.hex by {
      BlendChannelSame(Red(c.hex), t);
      BlendChannelSame(Green(c.hex), t);
      BlendChannelSame(Blue(c.hex), t);
      PackUnpack(c.hex);
      DivModUnique(c.hex, 0x100_0000, 0, c.hex);
      assert r.hex == Pack(Red(c.hex), Green(c.hex), Blue(c.hex));
    }
    assert r.opacity == c.opacity by {
      LerpSame(c.opacity, t);
    }
    assert r != c by {
      assert |r.name| > |c.name|;
    }
  }

  /** A channel blended with itself is unchanged. */
  lemma BlendChannelSame(x: Byte, t: real)
    requires 0.0 <= t <= 1.0
    ensures BlendChannel(x, x, t) == x
  {
    LerpSame(x as real, t);
  }

  /** `String(format: "#%06X", hex)`. `%X` prints a C `unsigned int`, the low 32 bits of `hex`. */
  function HexString(c: TRSColor): (s: string)
    ensures |s| >= 7 && s[0] == '#'
    ensures AllUpperHexDigits(s[1..])
  {
    "#" + Format06X(c.hex % 0x1_0000_0000)
  }

  /** Reads a `"#RRGGBB"` string back; `None` for anything that is not `#` followed by hex digits. */
  function ParseHexString(s: string): (r: Option<nat>)
    ensures r.Some? ==> |s| >= 2 && s[0] == '#'
  {
    if |s| >= 1 && s[0] == '#' then Parse(s[1..]) else None
  }

  /**
   * For a colour that fits in 24 bits the hex string is `#` and exactly six
   * upper-case digits, and parsing it back gives the colour's `hex`.
   */
  lemma HexStringRoundTrip(c: TRSColor)
    requires c.hex <= 0xFF_FFFF
    ensures |HexString(c)| == 7
    ensures ParseHexString(HexString(c)) == Some(c.hex)
  {
    assert c.hex % 0x1_0000_0000 == c.hex;
    SixDigits(c.hex);
    FormatParseRoundTrip(c.hex);
    assert HexString(c)[1..] == Format06X(c.hex);
  }
}
