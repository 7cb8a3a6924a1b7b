/** The star palette and the colour stops of a star's glow and lens flare.

    The glow and flare code reads the three channels out of the star's colour
    with the channel pattern (module RgbPattern) and builds two-stop gradients
    in that hue; a colour the pattern does not match falls back to fixed
    translucent-white stops. Stops are kept as numbers: the `rgba(...)` text the
    code formats them into is not modelled. */
module StarColors {
  import opened RgbPattern

  /** One colour stop of a canvas gradient: a hue and an opacity. */
  datatype Stop = Stop(r: nat, g: nat, b: nat, alpha: real)

  /** A two-stop gradient: offset 0 (`inner`) and offset 1 (`outer`). */
  datatype Gradient = Gradient(inner: Stop, outer: Stop)

  /** The number of colours a star is seeded with. */
  const PaletteSize: nat := 6

  /** The colours a star is seeded with, as written, by position. */
  function Palette(i: nat): string
    requires i < PaletteSize
  {
    match i
    case 0 => "rgba(255, 255, 255, 0.9)"  // pure white
    case 1 => "rgba(235, 244, 255, 0.85)" // bluish white
    case 2 => "rgba(200, 220, 255, 0.8)"  // light blue
    case 3 => "rgba(200, 200, 255, 0.8)"  // very light purple
    case 4 => "rgba(255, 240, 230, 0.8)"  // warm white
    case 5 => "rgba(220, 240, 255, 0.85)" // ice blue
  }

  /** A colour of the palette. */
  predicate InPalette(color: string) {
    exists i: nat :: i < PaletteSize && Palette(i) == color
  }

  /** The channels of each palette entry. */
  const PaletteChannels: seq<Channels> := [
    Channels(255, 255, 255),
    Channels(235, 244, 255),
    Channels(200, 220, 255),
    Channels(200, 200, 255),
    Channels(255, 240, 230),
    Channels(220, 240, 255)
  ]

  /** The alpha text of each palette entry. */
  const PaletteAlphas: seq<string> := ["0.9", "0.85", "0.8", "0.8", "0.8", "0.85"]

  /** The hue c at opacity alpha. */
  function Tint(c: Channels, alpha: real): Stop {
    Stop(c.r, c.g, c.b, alpha)
  }

  const White: Channels := Channels(255, 255, 255)

  /** A gradient from `c` at opacity `alpha` to the same hue fully transparent. */
  function FadeOut(c: Channels, alpha: real): (gr: Gradient)
    ensures gr.outer == gr.inner.(alpha := 0.0)
    ensures gr.inner.alpha == alpha
  {
    Gradient(Tint(c, alpha), Tint(c, 0.0))
  }

  /** The glow gradient of a star with colour `color` and twinkle factor `tf`:
      the parsed hue at opacity 0.4 * tf fading to transparent, or, when the
      colour does not parse, white at the fixed opacity 0.4. */
  function GlowStops(color: string, tf: real): Gradient {
    var c := Extract(color);
    if c.Some? then FadeOut(c.value, 0.4 * tf) else FadeOut(White, 0.4)
  }

  /** The flare gradient: the parsed hue at opacity 0.3 fading to
      transparent, with the same white fallback. */
  function FlareStops(color: string): Gradient {
    var c := Extract(color);
    if c.Some? then FadeOut(c.value, 0.3) else FadeOut(White, 0.3)
  }

  // ---------------------------------------------------------------------------
  // Lemmas

  /** The decimal notation of the channel values the palette uses. */
  lemma PaletteDecimals()
    ensures Decimal(200) == "200" && Decimal(220) == "220" && Decimal(230) == "230"
    ensures Decimal(235) == "235" && Decimal(240) == "240" && Decimal(244) == "244"
    ensures Decimal(255) == "255"
  {
    LowPaletteDecimals();
    HighPaletteDecimals();
  }

  lemma LowPaletteDecimals()
    ensures Decimal(200) == "200" && Decimal(220) == "220" && Decimal(230) == "230"
  {
    assert Decimal(2) == "2";
    assert Decimal(20) == "20" && Decimal(22) == "22" && Decimal(23) == "23";
  }

  lemma HighPaletteDecimals()
    ensures Decimal(235) == "235" && Decimal(240) == "240" && Decimal(244) == "244"
    ensures Decimal(255) == "255"
  {
    assert Decimal(2) == "2";
    assert Decimal(23) == "23" && Decimal(24) == "24" && Decimal(25) == "25";
  }

  lemma PureWhiteText()
    ensures "rgba(255, 255, 255, 0.9)" == RgbaText(Channels(255, 255, 255), OneSpace, "0.9")
  {
    PaletteDecimals();
  }

  lemma BluishWhiteText()
    ensures "rgba(235, 244, 255, 0.85)" == RgbaText(Channels(235, 244, 255), OneSpace, "0.85")
  {
    PaletteDecimals();
  }

  lemma LightBlueText()
    ensures "rgba(200, 220, 255, 0.8)" == RgbaText(Channels(200, 220, 255), OneSpace, "0.8")
  {
    PaletteDecimals();
  }

  lemma LightPurpleText()
    ensures "rgba(200, 200, 255, 0.8)" == RgbaText(Channels(200, 200, 255), OneSpace, "0.8")
  {
    PaletteDecimals();
  }

  lemma WarmWhiteText()
    ensures "rgba(255, 240, 230, 0.8)" == RgbaText(Channels(255, 240, 230), OneSpace, "0.8")
  {
    PaletteDecimals();
  }

  lemma IceBlueText()
    ensures "rgba(220, 240, 255, 0.85)" == RgbaText(Channels(220, 240, 255), OneSpace, "0.85")
  {
    PaletteDecimals();
  }

  /** Each palette entry is the `rgba(r, g, b, alpha)` text of its channels
      and alpha. */
  lemma PaletteIsRgbaText(i: nat)
    requires i < PaletteSize
    ensures Palette(i) == RgbaText(PaletteChannels[i], OneSpace, PaletteAlphas[i])
  {
    match i
    case 0 => PureWhiteText();
    case 1 => BluishWhiteText();
    case 2 => LightBlueText();
    case 3 => LightPurpleText();
    case 4 => WarmWhiteText();
    case 5 => IceBlueText();
  }

  /** Every palette entry matches the channel pattern and yields its own
      channels. */
  lemma PaletteMatches(i: nat)
    requires i < PaletteSize
    ensures Extract(Palette(i)) == Some(PaletteChannels[i])
  {
    PaletteIsRgbaText(i);
    PaletteAlphaIsNumber(i);
    RgbaTextMatches([], PaletteChannels[i], OneSpace, PaletteAlphas[i]);
    assert [] + Palette(i) == Palette(i);
  }

  /** Each palette alpha is a run the optional fourth group `([\d.]+)` takes. */
  lemma PaletteAlphaIsNumber(i: nat)
    requires i < |PaletteAlphas|
    ensures |PaletteAlphas[i]| > 0 && AllIn(PaletteAlphas[i], DigitOrDot)
  {
  }

  /** A seeded star never takes the white fallback: its glow and flare are in
      its own hue, the glow twinkling with it. */
  lemma PaletteGlow(i: nat, tf: real)
    requires i < PaletteSize
    ensures GlowStops(Palette(i), tf) == FadeOut(PaletteChannels[i], 0.4 * tf)
    ensures FlareStops(Palette(i)) == FadeOut(PaletteChannels[i], 0.3)
  {
    PaletteMatches(i);
  }

  /** Any colour written as `rgba(r, g, b, alpha)` or `rgb(r, g, b)`, with any
      white space after its commas, glows and flares in the hue it was written
      with. */
  lemma WrittenColourGlow(c: Channels, sp: Spacing, alpha: string, tf: real)
    requires SpacesOnly(sp) && |alpha| > 0 && AllIn(alpha, DigitOrDot)
    ensures GlowStops(RgbaText(c, sp, alpha), tf) == FadeOut(c, 0.4 * tf)
    ensures FlareStops(RgbaText(c, sp, alpha)) == FadeOut(c, 0.3)
    ensures GlowStops(RgbText(c, sp), tf) == FadeOut(c, 0.4 * tf)
    ensures FlareStops(RgbText(c, sp)) == FadeOut(c, 0.3)
  {
    RgbaTextMatches([], c, sp, alpha);
    RgbTextMatches([], c, sp);
    assert [] + RgbaText(c, sp, alpha) == RgbaText(c, sp, alpha);
    assert [] + RgbText(c, sp) == RgbText(c, sp);
  }

  /** Whatever the colour, each gradient fades to full transparency in the
      hue it starts with, and with a twinkle factor in [0.4, 1] the glow
      starts at an opacity in [0.16, 0.4]. The glow is the white fallback at
      0.4 exactly when the colour does not parse, or parses as white while
      the twinkle factor is at its peak of 1. */
  lemma StopsShape(color: string, tf: real)
    requires 0.4 <= tf <= 1.0
    ensures GlowStops(color, tf).outer == GlowStops(color, tf).inner.(alpha := 0.0)
    ensures 0.16 <= GlowStops(color, tf).inner.alpha <= 0.4
    ensures FlareStops(color).outer == FlareStops(color).inner.(alpha := 0.0)
    ensures FlareStops(color).inner.alpha == 0.3
    ensures GlowStops(color, tf) == FadeOut(White, 0.4) <==>
            Extract(color).None? || (Extract(color) == Some(White) && tf == 1.0)
  {
  }

  /** A colour without a closing parenthesis falls back to white. */
  lemma NoParenFallsBack(color: string, tf: real)
    requires ')' !in color
    ensures GlowStops(color, tf) == FadeOut(White, 0.4)
    ensures FlareStops(color) == FadeOut(White, 0.3)
  {
    NoParenNoMatch(color);
  }

  /** The pure white written with a space before its first comma does not
      parse: its glow is the white fallback, whose opacity stays at 0.4
      instead of following the twinkle. */
  lemma SpacedWhiteFallsBack(tf: real)
    ensures GlowStops("rgba(255 , 255, 255, 0.9)", tf) == FadeOut(White, 0.4)
    ensures tf != 1.0 ==> GlowStops("rgba(255 , 255, 255, 0.9)", tf) != GlowStops(Palette(0), tf)
  {
    SpaceBeforeCommaDoesNotMatch();
    PaletteGlow(0, tf);
  }

  /** Whichever palette colour a star has, its glow and flare are in that
      colour's own hue. */
  lemma PaletteColourGlows(color: string, tf: real)
    requires InPalette(color)
    ensures Extract(color).Some?
    ensures GlowStops(color, tf) == FadeOut(Extract(color).value, 0.4 * tf)
    ensures FlareStops(color) == FadeOut(Extract(color).value, 0.3)
  {
    var i: nat :| i < PaletteSize && Palette(i) == color;
    PaletteMatches(i);
  }
}
