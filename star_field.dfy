/** The star field component's state and the three things it does with it:
    resize the canvas (which re-seeds every star), seed the stars, and render
    one animation frame, moving every star in place and computing what is
    drawn for it.

    The canvas, the window and the animation-frame scheduler are not modelled:
    the window's inner size, the frame time and every random value come in as
    arguments, and a frame returns the sprites it would draw. */
module StarFieldCanvas {
  import opened StarColors
  import opened StarMotion

  class StarField {
    /** The component's properties: how many stars to seed, how fast they
        approach and how strongly they glow. */
    const starCount: real
    const speed: real
    const glowIntensity: real

    /** The canvas size, the time of the last frame and the stars. */
    var width: nat
    var height: nat
    var lastTime: real
    var stars: seq<Star>

    /** The canvas has an area: the radius formula divides by its width. */
    ghost predicate Valid()
      reads this
    {
      width > 0 && height > 0
    }

    /** Every star is in the field of the current canvas. */
    ghost predicate InBounds()
      reads this
    {
      Valid() && forall i :: 0 <= i < |stars| ==> InField(stars[i], width, height)
    }

    /** Mounting the component: no stars and a last frame time of 0, then a
        first resize to the window's inner size. */
    constructor(starCount: real, speed: real, glowIntensity: real,
                innerWidth: nat, innerHeight: nat, seeds: seq<SeedDraw>)
      requires innerWidth > 0 && innerHeight > 0
      requires SeedCount(starCount) <= |seeds| && forall i :: 0 <= i < |seeds| ==> ValidSeed(seeds[i])
      ensures this.starCount == starCount && this.speed == speed && this.glowIntensity == glowIntensity
      ensures width == innerWidth && height == innerHeight && lastTime == 0.0
      ensures stars == SeedAll(seeds, SeedCount(starCount), innerWidth, innerHeight)
      ensures InBounds()
    {
      this.starCount := starCount;
      this.speed := speed;
      this.glowIntensity := glowIntensity;
      stars := [];
      lastTime := 0.0;
      new;
      ResizeCanvas(innerWidth, innerHeight, seeds);
    }

    /** `resizeCanvas`: take the window's inner size and seed the stars anew.
        The time of the last frame is kept. */
    method ResizeCanvas(innerWidth: nat, innerHeight: nat, seeds: seq<SeedDraw>)
      requires innerWidth > 0 && innerHeight > 0
      requires SeedCount(starCount) <= |seeds| && forall i :: 0 <= i < |seeds| ==> ValidSeed(seeds[i])
      modifies this`width, this`height, this`stars
      ensures width == innerWidth && height == innerHeight
      ensures stars == SeedAll(seeds, SeedCount(starCount), innerWidth, innerHeight)
      ensures InBounds()
    {
      width := innerWidth;
      height := innerHeight;
      InitStars(seeds);
    }

    /** `initStars`: empty the star list, then push one star per loop round
        while the round number is below `starCount`. */
    method InitStars(seeds: seq<SeedDraw>)
      requires Valid()
      requires SeedCount(starCount) <= |seeds| && forall i :: 0 <= i < |seeds| ==> ValidSeed(seeds[i])
      modifies this`stars
      ensures stars == SeedAll(seeds, SeedCount(starCount), width, height)
      ensures InBounds()
    {
      stars := [];
      var i: nat := 0;
      while (i as real) < starCount
        invariant i <= SeedCount(starCount)
        invariant stars == SeedAll(seeds, i, width, height)
        invariant forall j :: 0 <= j < |stars| ==> InField(stars[j], width, height)
        decreases SeedCount(starCount) - i
      {
        var d := seeds[i];
        var size := d.size * 2.0 + 0.5;
        var star := Star(Scale(d.x, width), Scale(d.y, height), Scale(d.z, width), size,
                         Palette(PaletteIndex(d.color)), d.twinkle, 0.01 + d.twinkleSpeed * 0.03);
        SeedStarInField(d, width, height);
        stars := stars + [star];
        i := i + 1;
      }
    }

    /** `render(time)`: one animation frame. Every star approaches by
        `speed * (deltaTime * 0.05 || 1)`, twinkles, and goes back to the far
        plane when it reaches the viewer; the sprites drawn for the moved
        stars are returned in order. */
    method Render(time: real, draws: seq<FrameDraw>) returns (sprites: seq<Sprite>)
      requires Valid()
      requires |draws| == |stars| && forall i :: 0 <= i < |draws| ==> ValidFrame(draws[i])
      modifies this`stars, this`lastTime
      ensures lastTime == time
      ensures stars == StepAll(old(stars), width, height, speed * Multiplier(time - old(lastTime)), draws)
      ensures sprites == SpritesOf(stars, width, glowIntensity, draws)
      ensures old(InBounds()) && speed >= 0.0 && time >= old(lastTime) ==> InBounds()
    {
      var deltaTime := time - lastTime;
      lastTime := time;
      var dz := speed * Multiplier(deltaTime);
      assert dz == speed * Multiplier(time - old(lastTime));
      sprites := [];
      var i := 0;
      while i < |stars|
        invariant 0 <= i <= |stars| == |old(stars)|
        invariant lastTime == time
        invariant forall j :: 0 <= j < i ==> stars[j] == StepStar(old(stars)[j], width, height, dz, draws[j])
        invariant forall j :: i <= j < |stars| ==> stars[j] == old(stars)[j]
        invariant sprites == SpritesOf(stars[..i], width, glowIntensity, draws[..i])
      {
        var star := MoveStar(stars[i], dz, draws[i]);
        SpritesAppend(stars[..i], draws[..i], star, draws[i], width, glowIntensity);
        assert stars[i := star][..i + 1] == stars[..i] + [star];
        assert draws[..i + 1] == draws[..i] + [draws[i]];
        stars := stars[i := star];
        sprites := sprites + [SpriteOf(star, width, glowIntensity, draws[i])];
        i := i + 1;
      }
      StepAllPointwise(old(stars), stars, width, height, dz, draws);
      assert stars[..i] == stars && draws[..i] == draws;
      if old(InBounds()) && speed >= 0.0 && deltaTime >= 0.0 {
        ProductNonNegative(speed, Multiplier(deltaTime));
        StepAllKeepsInField(old(stars), width, height, dz, draws);
      }
    }

    /** The body of the per-star callback of `render` up to the drawing: the
        star approaches by `dz`, its twinkle phase advances and restarts at 0
        past 1, and a star at or behind the viewer goes back to the far plane
        at a fresh position. */
    method MoveStar(star: Star, dz: real, d: FrameDraw) returns (moved: Star)
      requires Valid() && ValidFrame(d)
      ensures moved == StepStar(star, width, height, dz, d)
    {
      moved := star.(z := star.z - dz);
      moved := moved.(twinkle := moved.twinkle + moved.twinkleSpeed);
      if moved.twinkle > 1.0 {
        moved := moved.(twinkle := 0.0);
      }
      if moved.z <= 0.0 {
        moved := moved.(z := width as real, x := Scale(d.resetX, width), y := Scale(d.resetY, height));
      }
    }
  }
}
