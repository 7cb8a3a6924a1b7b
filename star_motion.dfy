/** One star of the star field: how it is seeded, how one frame moves it and
    makes it twinkle, and what is drawn for it.

    Coordinates are exact reals. Every `Math.random()` value a star consumes
    comes in as a field of a draw record, in [0, 1). The twinkle factor
    `0.7 + 0.3 * sin(2 * PI * twinkle)` comes in as a number in [0.4, 1]; the
    glow's `1 + 0.3 * sin(2 * PI * twinkle)` is then the twinkle factor plus
    0.3. */
module StarMotion {
  import opened RgbPattern
  import opened StarColors

  /** A star: its position on screen, its depth `z` (the width of the canvas
      when it is farthest, 0 when it reaches the viewer), its size, colour,
      twinkle phase and the phase advance per frame. */
  datatype Star = Star(x: real, y: real, z: real, size: real, color: string,
                       twinkle: real, twinkleSpeed: real)

  /** A value `Math.random()` can return. */
  predicate Unit(r: real) {
    0.0 <= r < 1.0
  }

  /** The seven random values one seeded star consumes, in the order they are
      drawn. */
  datatype SeedDraw = SeedDraw(size: real, x: real, y: real, z: real, color: real,
                               twinkle: real, twinkleSpeed: real)

  predicate ValidSeed(d: SeedDraw) {
    Unit(d.size) && Unit(d.x) && Unit(d.y) && Unit(d.z) && Unit(d.color) &&
    Unit(d.twinkle) && Unit(d.twinkleSpeed)
  }

  /** What one frame takes for one star besides its state: the twinkle factor,
      the random position a reset star moves to and the flare coin. */
  datatype FrameDraw = FrameDraw(twinkleFactor: real, resetX: real, resetY: real, flareCoin: real)

  predicate ValidFrame(d: FrameDraw) {
    0.4 <= d.twinkleFactor <= 1.0 && Unit(d.resetX) && Unit(d.resetY) && Unit(d.flareCoin)
  }

  // ---------------------------------------------------------------------------
  // Seeding

  /** How many times `for (let i = 0; i < starCount; i++)` runs: the least
      natural number that is not below `starCount`. */
  function SeedCount(starCount: real): (n: nat)
    ensures starCount <= n as real
    ensures n == 0 || ((n - 1) as real) < starCount
  {
    if starCount <= 0.0 then 0 else -((-starCount).Floor)
  }

  /** `Math.floor(Math.random() * colors.length)`. */
  function PaletteIndex(r: real): (i: nat)
    requires Unit(r)
    ensures i < PaletteSize
    ensures i as real <= r * 6.0 < (i + 1) as real
  {
    (r * 6.0).Floor
  }

  /** `Math.random() * n`: a random fraction of a positive length, which lies
      in [0, n). */
  function Scale(r: real, n: nat): (v: real)
    requires Unit(r) && n > 0
    ensures 0.0 <= v < n as real
  {
    r * n as real
  }

  /** The star pushed for one seed draw on a canvas of the given size. */
  function SeedStar(d: SeedDraw, width: nat, height: nat): Star
    requires ValidSeed(d) && width > 0 && height > 0
  {
    Star(Scale(d.x, width), Scale(d.y, height), Scale(d.z, width),
         d.size * 2.0 + 0.5, Palette(PaletteIndex(d.color)),
         d.twinkle, 0.01 + d.twinkleSpeed * 0.03)
  }

  /** The first n stars seeded from `seeds`. */
  function SeedAll(seeds: seq<SeedDraw>, n: nat, width: nat, height: nat): (ss: seq<Star>)
    requires width > 0 && height > 0
    requires n <= |seeds| && forall i :: 0 <= i < |seeds| ==> ValidSeed(seeds[i])
    ensures |ss| == n
    ensures forall i :: 0 <= i < n ==> ss[i] == SeedStar(seeds[i], width, height)
  {
    seq(n, i requires 0 <= i < n => SeedStar(seeds[i], width, height))
  }

  /** A star as the field keeps it between frames on a width x height canvas:
      on screen, at a depth between the viewer and the far plane, with a
      twinkle phase in [0, 1] and the size, speed and colour seeding gives. */
  predicate InField(s: Star, width: nat, height: nat) {
    0.0 <= s.x < width as real && 0.0 <= s.y < height as real &&
    0.0 <= s.z <= width as real &&
    0.0 <= s.twinkle <= 1.0 &&
    0.5 <= s.size < 2.5 && 0.01 <= s.twinkleSpeed < 0.04 &&
    InPalette(s.color)
  }

  // ---------------------------------------------------------------------------
  // One frame

  /** `deltaTime * 0.05 || 1`: the frame's depth multiplier, 1 when the
      product is 0 (as on the first frame, drawn at time 0 after time 0). */
  function Multiplier(deltaTime: real): (m: real)
    ensures deltaTime == 0.0 ==> m == 1.0
    ensures deltaTime != 0.0 ==> m == deltaTime * 0.05
    ensures deltaTime >= 0.0 ==> m > 0.0
  {
    var product := deltaTime * 0.05;
    if product == 0.0 then 1.0 else product
  }

  /** The twinkle phase after one frame: advanced by the speed, and set back to
      exactly 0 (not wrapped) once it passes 1. */
  function AdvanceTwinkle(twinkle: real, speed: real): (t: real)
    ensures t <= 1.0
    ensures 0.0 <= twinkle + speed ==> 0.0 <= t
    ensures t == twinkle + speed || t == 0.0
  {
    var t := twinkle + speed;
    if t > 1.0 then 0.0 else t
  }

  /** One star after one frame in which depth drops by `dz`: a star that
      reaches the viewer goes back to the far plane at a fresh position. */
  function StepStar(s: Star, width: nat, height: nat, dz: real, d: FrameDraw): (r: Star)
    requires width > 0 && height > 0 && ValidFrame(d)
    ensures r.size == s.size && r.color == s.color && r.twinkleSpeed == s.twinkleSpeed
    ensures r.twinkle == AdvanceTwinkle(s.twinkle, s.twinkleSpeed)
  {
    var t := AdvanceTwinkle(s.twinkle, s.twinkleSpeed);
    if s.z - dz <= 0.0 then
      s.(x := Scale(d.resetX, width), y := Scale(d.resetY, height), z := width as real, twinkle := t)
    else
      s.(z := s.z - dz, twinkle := t)
  }

  /** Every star after one frame. */
  function StepAll(ss: seq<Star>, width: nat, height: nat, dz: real, draws: seq<FrameDraw>): (rs: seq<Star>)
    requires width > 0 && height > 0
    requires |draws| == |ss| && forall i :: 0 <= i < |draws| ==> ValidFrame(draws[i])
    ensures |rs| == |ss|
    ensures forall i :: 0 <= i < |ss| ==> rs[i] == StepStar(ss[i], width, height, dz, draws[i])
  {
    seq(|ss|, i requires 0 <= i < |ss| => StepStar(ss[i], width, height, dz, draws[i]))
  }

  /** One star over several frames of equal depth drop, one draw per frame. */
  function Fly(s: Star, width: nat, height: nat, dz: real, draws: seq<FrameDraw>): Star
    requires width > 0 && height > 0 && forall i :: 0 <= i < |draws| ==> ValidFrame(draws[i])
    decreases |draws|
  {
    if |draws| == 0 then s
    else Fly(StepStar(s, width, height, dz, draws[0]), width, height, dz, draws[1..])
  }

  // ---------------------------------------------------------------------------
  // What is drawn

  /** `star.size * (1 - star.z / canvas.width) * twinkleFactor`. */
  function Radius(size: real, z: real, width: nat, tf: real): real
    requires width > 0
  {
    size * (1.0 - z / width as real) * tf
  }

  /** `radius * glowIntensity * (1 + 0.3 * sin(...))`, with the sine term
      written through the twinkle factor: between 0.7 and 1.3 times the radius
      scaled by the glow intensity. */
  function GlowRadius(radius: real, glowIntensity: real, tf: real): (g: real)
    ensures 0.0 <= radius && 0.0 <= glowIntensity && 0.4 <= tf <= 1.0 ==>
            0.7 * (radius * glowIntensity) <= g <= 1.3 * (radius * glowIntensity)
  {
    GlowBetween(radius, glowIntensity, tf);
    radius * glowIntensity * (tf + 0.3)
  }

  /** A lens flare: its length and line width. Its direction comes from a
      random angle through sine and cosine and is not modelled. */
  datatype Flare = Flare(length: real, lineWidth: real)

  /** What one frame draws for one star: a disc of the star's colour, a glow
      whose radial gradient runs from half the radius to the glow radius, and
      sometimes a flare. The twinkle factor drawn for the frame is kept, since
      the glow's opacity follows it. */
  datatype Sprite = Sprite(x: real, y: real, radius: real, fill: string, twinkleFactor: real,
                           glowInner: real, glowRadius: real, flare: Option<Flare>)

  /** The sprite of a star already moved this frame. */
  function SpriteOf(s: Star, width: nat, glowIntensity: real, d: FrameDraw): Sprite
    requires width > 0
  {
    var tf := d.twinkleFactor;
    var radius := Radius(s.size, s.z, width, tf);
    var glowRadius := GlowRadius(radius, glowIntensity, tf);
    var flare := if radius > 1.2 && d.flareCoin > 0.7
                 then Some(Flare(radius * 10.0 * tf, radius * 0.5))
                 else None;
    Sprite(s.x, s.y, radius, s.color, tf, radius * 0.5, glowRadius, flare)
  }

  /** The glow gradient a sprite is painted with: from its colour, parsed
      when it is drawn, and its twinkle factor. */
  function GlowOf(sp: Sprite): Gradient {
    GlowStops(sp.fill, sp.twinkleFactor)
  }

  /** The gradient a sprite's flare is stroked with, parsed from its colour. */
  function FlareGradientOf(sp: Sprite): Gradient {
    FlareStops(sp.fill)
  }

  /** The sprites of every star, in order. */
  function SpritesOf(ss: seq<Star>, width: nat, glowIntensity: real, draws: seq<FrameDraw>): (sp: seq<Sprite>)
    requires width > 0 && |draws| == |ss|
    ensures |sp| == |ss|
    ensures forall i :: 0 <= i < |ss| ==> sp[i] == SpriteOf(ss[i], width, glowIntensity, draws[i])
  {
    seq(|ss|, i requires 0 <= i < |ss| => SpriteOf(ss[i], width, glowIntensity, draws[i]))
  }

  // ---------------------------------------------------------------------------
  // Lemmas

  lemma OneLess(n: real, a: real)
    ensures (n - 1.0) * a == n * a - a
  {
  }

  lemma ProductNonNegative(a: real, b: real)
    requires 0.0 <= a && 0.0 <= b
    ensures 0.0 <= a * b
  {
  }

  lemma ProductPositive(a: real, b: real)
    requires 0.0 < a && 0.0 < b
    ensures 0.0 < a * b
  {
  }

  /** Every seeded star is in the field, strictly in front of the far plane
      and with a phase strictly below 1. */
  lemma SeedStarInField(d: SeedDraw, width: nat, height: nat)
    requires ValidSeed(d) && width > 0 && height > 0
    ensures InField(SeedStar(d, width, height), width, height)
    ensures SeedStar(d, width, height).z < width as real
    ensures SeedStar(d, width, height).twinkle < 1.0
  {
    var s := SeedStar(d, width, height);
    assert InPalette(s.color) by {
      assert Palette(PaletteIndex(d.color)) == s.color;
    }
    assert 0.5 <= s.size < 2.5;
    assert 0.01 <= s.twinkleSpeed < 0.04;
  }

  /** A frame keeps a star in the field when depth does not grow: the star
      ends strictly in front of the viewer, at most at the far plane. */
  lemma StepKeepsInField(s: Star, width: nat, height: nat, dz: real, d: FrameDraw)
    requires InField(s, width, height) && width > 0 && height > 0
    requires dz >= 0.0 && ValidFrame(d)
    ensures InField(StepStar(s, width, height, dz, d), width, height)
    ensures StepStar(s, width, height, dz, d).z > 0.0
  {
  }

  /** A frame keeps every star of the field in the field. */
  lemma StepAllKeepsInField(ss: seq<Star>, width: nat, height: nat, dz: real, draws: seq<FrameDraw>)
    requires width > 0 && height > 0 && dz >= 0.0
    requires |draws| == |ss| && forall i :: 0 <= i < |draws| ==> ValidFrame(draws[i])
    requires forall i :: 0 <= i < |ss| ==> InField(ss[i], width, height)
    ensures forall i :: 0 <= i < |ss| ==> InField(StepAll(ss, width, height, dz, draws)[i], width, height)
  {
    forall i | 0 <= i < |ss| ensures InField(StepAll(ss, width, height, dz, draws)[i], width, height) {
      StepKeepsInField(ss[i], width, height, dz, draws[i]);
    }
  }

  /** A sequence that holds, index by index, each star after one frame is
      the field after that frame. */
  lemma StepAllPointwise(ss: seq<Star>, rs: seq<Star>, width: nat, height: nat, dz: real, draws: seq<FrameDraw>)
    requires width > 0 && height > 0
    requires |draws| == |ss| && forall i :: 0 <= i < |draws| ==> ValidFrame(draws[i])
    requires |rs| == |ss| && forall i :: 0 <= i < |ss| ==> rs[i] == StepStar(ss[i], width, height, dz, draws[i])
    ensures rs == StepAll(ss, width, height, dz, draws)
  {
  }

  /** The sprites of a field with one more star are the sprites before it
      followed by that star's sprite. */
  lemma SpritesAppend(ss: seq<Star>, draws: seq<FrameDraw>, s: Star, d: FrameDraw, width: nat, glowIntensity: real)
    requires width > 0 && |draws| == |ss|
    ensures SpritesOf(ss + [s], width, glowIntensity, draws + [d])
            == SpritesOf(ss, width, glowIntensity, draws) + [SpriteOf(s, width, glowIntensity, d)]
  {
  }

  /** While a star stays in front of the viewer it only comes closer, by `dz`
      a frame, and keeps its place on screen. */
  lemma {:induction false} FlyApproaches(s: Star, width: nat, height: nat, dz: real, draws: seq<FrameDraw>)
    requires width > 0 && height > 0 && forall i :: 0 <= i < |draws| ==> ValidFrame(draws[i])
    requires dz >= 0.0 && (|draws| as real) * dz < s.z
    ensures Fly(s, width, height, dz, draws).z == s.z - (|draws| as real) * dz
    ensures Fly(s, width, height, dz, draws).x == s.x && Fly(s, width, height, dz, draws).y == s.y
    decreases |draws|
  {
    if |draws| > 0 {
      var n := |draws| as real;
      OneLess(n, dz);
      ProductNonNegative(n - 1.0, dz);
      var next := StepStar(s, width, height, dz, draws[0]);
      assert next.z == s.z - dz;
      FlyApproaches(next, width, height, dz, draws[1..]);
    }
  }

  /** A star at depth z with n * dz < z <= (n + 1) * dz reaches the viewer on
      frame n + 1 and is then back at the far plane, at the position that
      frame's draw gives. */
  lemma {:induction false} FlyArrives(s: Star, width: nat, height: nat, dz: real, draws: seq<FrameDraw>)
    requires width > 0 && height > 0 && forall i :: 0 <= i < |draws| ==> ValidFrame(draws[i])
    requires dz > 0.0 && |draws| > 0
    requires ((|draws| - 1) as real) * dz < s.z <= (|draws| as real) * dz
    ensures Fly(s, width, height, dz, draws).z == width as real
    ensures Fly(s, width, height, dz, draws).x == Scale(draws[|draws| - 1].resetX, width)
    ensures Fly(s, width, height, dz, draws).y == Scale(draws[|draws| - 1].resetY, height)
    decreases |draws|
  {
    var next := StepStar(s, width, height, dz, draws[0]);
    if |draws| == 1 {
      assert Fly(s, width, height, dz, draws) == Fly(next, width, height, dz, []);
    } else {
      var n := |draws| as real;
      OneLess(n, dz);
      OneLess(n - 1.0, dz);
      assert next.z == s.z - dz;
      FlyArrives(next, width, height, dz, draws[1..]);
    }
  }

  /** From phase t the twinkle climbs by its speed each frame while it stays
      at most 1. */
  lemma {:induction false} FlyTwinkleClimbs(s: Star, width: nat, height: nat, dz: real, draws: seq<FrameDraw>)
    requires width > 0 && height > 0 && forall i :: 0 <= i < |draws| ==> ValidFrame(draws[i])
    requires 0.0 <= s.twinkle && 0.0 <= s.twinkleSpeed
    requires s.twinkle + (|draws| as real) * s.twinkleSpeed <= 1.0
    ensures Fly(s, width, height, dz, draws).twinkle == s.twinkle + (|draws| as real) * s.twinkleSpeed
    decreases |draws|
  {
    if |draws| > 0 {
      var n := |draws| as real;
      OneLess(n, s.twinkleSpeed);
      ProductNonNegative(n - 1.0, s.twinkleSpeed);
      var next := StepStar(s, width, height, dz, draws[0]);
      assert next.twinkle == s.twinkle + s.twinkleSpeed;
      FlyTwinkleClimbs(next, width, height, dz, draws[1..]);
    }
  }

  /** The frame on which the phase would pass 1 sets it to exactly 0: with a
      speed that does not divide the distance to 1, the phase does not keep
      the overshoot as `% 1` would. */
  lemma {:induction false} FlyTwinkleRestarts(s: Star, width: nat, height: nat, dz: real, draws: seq<FrameDraw>)
    requires width > 0 && height > 0 && forall i :: 0 <= i < |draws| ==> ValidFrame(draws[i])
    requires 0.0 <= s.twinkle && 0.0 <= s.twinkleSpeed && |draws| > 0
    requires s.twinkle + ((|draws| - 1) as real) * s.twinkleSpeed <= 1.0
    requires s.twinkle + (|draws| as real) * s.twinkleSpeed > 1.0
    ensures Fly(s, width, height, dz, draws).twinkle == 0.0
    decreases |draws|
  {
    var next := StepStar(s, width, height, dz, draws[0]);
    if |draws| == 1 {
      assert Fly(s, width, height, dz, draws) == Fly(next, width, height, dz, []);
    } else {
      var n := |draws| as real;
      OneLess(n, s.twinkleSpeed);
      OneLess(n - 1.0, s.twinkleSpeed);
      ProductNonNegative(n - 2.0, s.twinkleSpeed);
      assert next.twinkle == s.twinkle + s.twinkleSpeed;
      FlyTwinkleRestarts(next, width, height, dz, draws[1..]);
    }
  }

  /** A star between the viewer and the far plane has a radius between 0 (at
      the far plane) and its size times the twinkle factor, which it reaches
      only at the viewer. */
  lemma RadiusBounds(size: real, z: real, width: nat, tf: real)
    requires width > 0 && 0.0 <= z <= width as real && 0.0 <= size && 0.0 <= tf
    ensures 0.0 <= Radius(size, z, width, tf) <= size * tf
    ensures z == width as real ==> Radius(size, z, width, tf) == 0.0
    ensures 0.0 < z && 0.0 < size && 0.0 < tf ==> Radius(size, z, width, tf) < size * tf
  {
    var q := z / width as real;
    FractionBounds(z, width as real);
    var st := size * tf;
    ProductNonNegative(size, tf);
    assert Radius(size, z, width, tf) == st - st * q;
    ProductNonNegative(st, q);
    ProductNonNegative(st, 1.0 - q);
    if 0.0 < z && 0.0 < size && 0.0 < tf {
      ProductPositive(size, tf);
      ProductPositive(st, q);
    }
  }

  /** A depth over a positive width it does not exceed lies in [0, 1]. */
  lemma FractionBounds(z: real, w: real)
    requires 0.0 < w && 0.0 <= z <= w
    ensures 0.0 <= z / w <= 1.0
    ensures 0.0 < z ==> 0.0 < z / w
  {
  }

  /** A star looks larger the closer it is: for a positive size and twinkle
      factor, one depth gives a larger radius than another exactly when it is
      nearer. */
  lemma RadiusGrowsAsStarApproaches(size: real, z1: real, z2: real, width: nat, tf: real)
    requires width > 0 && 0.0 < size && 0.0 < tf
    ensures Radius(size, z1, width, tf) > Radius(size, z2, width, tf) <==> z1 < z2
  {
    var w := width as real;
    var k := size * tf / w;
    assert k > 0.0;
    assert Radius(size, z1, width, tf) - Radius(size, z2, width, tf) == k * (z2 - z1);
  }

  /** A non-negative size scaled by a factor in [0, 1] lies between 0 and
      the size. */
  lemma ScaledSize(size: real, tf: real)
    requires 0.0 <= size && 0.0 <= tf <= 1.0
    ensures 0.0 <= size * tf <= size
  {
  }

  /** The glow radius `radius * glowIntensity * (1 + 0.3 * sin(...))`, that is
      `radius * glowIntensity * (tf + 0.3)`, lies between 0.7 and 1.3 times the
      radius scaled by the glow intensity. */
  lemma GlowBetween(radius: real, glowIntensity: real, tf: real)
    ensures 0.0 <= radius && 0.0 <= glowIntensity && 0.4 <= tf <= 1.0 ==>
            0.7 * (radius * glowIntensity) <= radius * glowIntensity * (tf + 0.3) <= 1.3 * (radius * glowIntensity)
  {
    if 0.0 <= radius && 0.0 <= glowIntensity && 0.4 <= tf <= 1.0 {
      var k := radius * glowIntensity;
      ProductNonNegative(radius, glowIntensity);
      assert radius * glowIntensity * (tf + 0.3) == k * tf + k * 0.3;
      ProductNonNegative(k, tf - 0.4);
      ProductNonNegative(k, 1.0 - tf);
    }
  }

  /** The numbers behind a sprite's sizes, for a star between the viewer and
      the far plane with a seeded size and a twinkle factor in [0.4, 1]. */
  lemma RadiusFacts(size: real, z: real, width: nat, tf: real)
    requires width > 0 && 0.0 <= z <= width as real && 0.5 <= size < 2.5
    requires 0.4 <= tf <= 1.0
    ensures 0.0 <= Radius(size, z, width, tf) < 2.5
    ensures Radius(size, z, width, tf) > 1.2 ==> size > 1.2
  {
    RadiusBounds(size, z, width, tf);
    ScaledSize(size, tf);
  }

  /** How large what a frame draws for a star of the field is: a radius in
      [0, 2.5), a glow reaching 0.7 to 1.3 times the radius scaled by the glow
      intensity, and a flare only for a star larger than 1.2. */
  lemma SpriteSizes(s: Star, width: nat, height: nat, glowIntensity: real, d: FrameDraw)
    requires InField(s, width, height) && width > 0 && height > 0
    requires ValidFrame(d) && 0.0 <= glowIntensity
    ensures 0.0 <= SpriteOf(s, width, glowIntensity, d).radius < 2.5
    ensures SpriteOf(s, width, glowIntensity, d).flare.Some? ==> s.size > 1.2
    ensures var sp := SpriteOf(s, width, glowIntensity, d);
      0.7 * (sp.radius * glowIntensity) <= sp.glowRadius <= 1.3 * (sp.radius * glowIntensity)
  {
    RadiusFacts(s.size, s.z, width, d.twinkleFactor);
  }

  /** The numbers behind a flare's sizes: a radius in (1.2, 2.5) and a twinkle
      factor in [0.4, 1] give a length in (4.8, 25) and a line width in
      (0.6, 1.25). */
  lemma FlareFacts(radius: real, tf: real)
    requires 1.2 < radius < 2.5 && 0.4 <= tf <= 1.0
    ensures 4.8 < radius * 10.0 * tf < 25.0
    ensures 0.6 < radius * 0.5 < 1.25
  {
    ProductPositive(radius - 1.2, tf);
    ProductNonNegative(radius, 1.0 - tf);
    assert radius * 10.0 * tf == 10.0 * (radius * tf);
  }

  /** A flare, when a star of the field has one, is 4.8 to 25 long and 0.6 to
      1.25 wide. */
  lemma SpriteFlareSizes(s: Star, width: nat, height: nat, glowIntensity: real, d: FrameDraw)
    requires InField(s, width, height) && width > 0 && height > 0 && ValidFrame(d)
    ensures var sp := SpriteOf(s, width, glowIntensity, d);
      sp.flare.Some? ==> 4.8 < sp.flare.value.length < 25.0 && 0.6 < sp.flare.value.lineWidth < 1.25
  {
    var r := Radius(s.size, s.z, width, d.twinkleFactor);
    RadiusFacts(s.size, s.z, width, d.twinkleFactor);
    if r > 1.2 {
      FlareFacts(r, d.twinkleFactor);
    }
  }

  /** The colours a frame draws a star of the field in: the glow fades from
      the star's own hue at 0.4 times the twinkle factor, and a flare from the
      same hue at 0.3; the white fallback is never taken. */
  lemma SpriteColours(s: Star, width: nat, height: nat, glowIntensity: real, d: FrameDraw)
    requires InField(s, width, height) && width > 0 && height > 0
    ensures Extract(s.color).Some?
    ensures GlowOf(SpriteOf(s, width, glowIntensity, d)) ==
            FadeOut(Extract(s.color).value, 0.4 * d.twinkleFactor)
    ensures FlareGradientOf(SpriteOf(s, width, glowIntensity, d)) == FadeOut(Extract(s.color).value, 0.3)
  {
    PaletteColourGlows(s.color, d.twinkleFactor);
  }
}
