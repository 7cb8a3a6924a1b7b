# Star field

A Dafny model of the `StarField` React component of a space-themed landing
page (`src/components/ui/star-field.tsx`). The component keeps a list of
stars on a full-window canvas. On mount and on every window resize it takes
the window's size and seeds `starCount` stars anew. On every animation frame
it moves each star towards the viewer, advances the star's twinkle phase,
sends a star that reaches the viewer back to the far plane at a fresh
position, and draws a disc, a radial glow and sometimes a lens flare for it.
The glow and flare take their hue from the star's colour text, which is
parsed with the regular expression
`/rgba?\((\d+),\s*(\d+),\s*(\d+)(?:,\s*([\d.]+))?\)/`. A colour the
expression does not match gets translucent white.

The model has four modules:

- `RgbPattern` (`rgb_pattern.dfy`) is that regular expression under
  JavaScript's `String.prototype.match`, followed by `parseInt` of the three
  channel groups. Matching is unanchored and the leftmost match wins. At each
  start position the pattern can match in only one way, so the matcher reads
  every greedy run in full.
- `StarColors` (`star_colors.dfy`) holds the six-colour palette and the stops
  of the glow and flare gradients.
- `StarMotion` (`star_motion.dfy`) holds the star record and the functions
  that specify the component:
  - seeding a star;
  - one frame of one star, and many frames;
  - the radius, glow radius and flare of what is drawn.
- `StarFieldCanvas` (`star_field.dfy`) holds the component state as a class:
  - the canvas width and height, the time of the last frame, and the star list;
  - the imperative `ResizeCanvas`, `InitStars` and `Render`, each proved
    against the `StarMotion` functions.

Every `Math.random()` value arrives as a field of a draw record, in
[0, 1):
- `SeedDraw` holds the seven values one star takes when it is seeded.
- `FrameDraw` holds the reset position and the flare coin for one frame.
  It also holds the frame's twinkle factor, a number in [0.4, 1].

The window size and the frame time are arguments. A frame returns the
sprites it would draw in place of drawing on a canvas.

## Model

| member | source | states |
|---|---|---|
| RgbPattern.DecimalRoundTrip | src/components/ui/star-field.tsx:118-120 | `DecimalValue`, the model of `parseInt` on a captured group, reads back the number that a channel written in decimal holds |
| RgbPattern.LeadingZeroIgnored | src/components/ui/star-field.tsx:118-120 | `DecimalValue` ignores a leading zero, as `parseInt` does: `007` reads as 7 |
| RgbPattern.GroupOfDecimal | src/components/ui/star-field.tsx:116 | the group `(\d+)` takes exactly the digits of a written channel followed by a non-digit, reads back its value, and leaves the rest |
| RgbPattern.ExtractIsLeftmost | src/components/ui/star-field.tsx:116 | `Extract`, the model of `color.match(...)`, finds nothing exactly when the pattern matches at no start position; otherwise it returns the channels of the leftmost match |
| RgbPattern.ExtractAfterPrefix | src/components/ui/star-field.tsx:116 | the unanchored search skips a prefix without `r`, where the pattern cannot start, and returns the match of what follows. With an empty prefix, a string the pattern matches at its head yields that match |
| RgbPattern.NoParenNoMatchAt | src/components/ui/star-field.tsx:116 | `MatchAt`, the pattern anchored at one position, fails on any string without `)` |
| RgbPattern.RgbaTextMatches | src/components/ui/star-field.tsx:116-120 | every text `rgba(r, g, b, alpha)` yields exactly the channels r, g and b. This holds for a digits-and-dots alpha, any run of `\s` characters (none included) after each comma, and any prefix without `r` |
| RgbPattern.RgbTextMatches | src/components/ui/star-field.tsx:116-120 | every text `rgb(r, g, b)` yields exactly its channels, because the fourth group is optional. This holds for any run of `\s` characters after each comma and any prefix without `r` |
| RgbPattern.SpacedColourMatches | src/components/ui/star-field.tsx:116-120 | `fill: rgba(1,<tab>2,  3,0.5)` yields the channels 1, 2 and 3 |
| RgbPattern.NoParenNoMatch | src/components/ui/star-field.tsx:116-117 | a colour without `)` matches nowhere |
| RgbPattern.SpaceBeforeCommaNoMatch | src/components/ui/star-field.tsx:116 | a space between the first channel and its comma makes the whole colour unmatched when no later `r` could start another match, because the pattern allows no space before a comma |
| RgbPattern.SpaceBeforeCommaDoesNotMatch | src/components/ui/star-field.tsx:116 | `rgba(255 , 255, 255, 0.9)` does not match |
| StarColors.PaletteIsRgbaText | src/components/ui/star-field.tsx:41-48 | each of the six `Palette` entries is the `rgba(r, g, b, alpha)` text of its listed channels and alpha |
| StarColors.PaletteMatches | src/components/ui/star-field.tsx:41-48 | every palette entry matches the channel pattern and yields its own channels |
| StarColors.PaletteGlow | src/components/ui/star-field.tsx:116-163 | a palette colour's glow runs from its hue at 0.4 times the twinkle factor to the same hue at 0; its flare runs from its hue at 0.3 to 0 |
| StarColors.WrittenColourGlow | src/components/ui/star-field.tsx:116-125 | any colour written as `rgba(...)` or `rgb(...)`, with any white space after its commas, glows and flares in the hue it was written with |
| StarColors.StopsShape | src/components/ui/star-field.tsx:116-163 | for `GlowStops` (lines 116-130) and `FlareStops` (lines 153-163), every gradient ends in its start hue at opacity 0. For a twinkle factor in [0.4, 1] the glow starts at opacity 0.16 to 0.4, and the flare always starts at 0.3. The glow equals the white fallback exactly when the colour does not match, or matches as white at twinkle factor 1 |
| StarColors.FadeOut | src/components/ui/star-field.tsx:124-125 | a gradient ends in the hue it starts with, at opacity 0, and starts at the opacity asked for |
| StarColors.NoParenFallsBack | src/components/ui/star-field.tsx:126-130 | a colour without `)` gets the white fallback stops: 0.4 for the glow and 0.3 for the flare |
| StarColors.SpacedWhiteFallsBack | src/components/ui/star-field.tsx:126-130 | white written with a space before its first comma gets the fallback glow, which differs from the palette white's glow at every twinkle factor other than 1 |
| StarColors.PaletteColourGlows | src/components/ui/star-field.tsx:153-163 | a palette colour matches, so its glow and flare stops are in its parsed hue and never the white fallback |
| StarMotion.SeedCount | src/components/ui/star-field.tsx:37 | the seeding loop runs the least natural number of times that is not below `starCount`, and 0 times when `starCount` is not positive |
| StarMotion.PaletteIndex | src/components/ui/star-field.tsx:55 | `Math.floor(Math.random() * colors.length)` is an index of the six-colour palette, namely the floor of r times 6 |
| StarMotion.Scale | src/components/ui/star-field.tsx:51-53 | a random fraction of a positive canvas length lies in [0, length) |
| StarMotion.SeedStarInField | src/components/ui/star-field.tsx:38-57 | every star `SeedStar` pushes is on the canvas. Its depth is in [0, width), its size in [0.5, 2.5), its twinkle phase in [0, 1) and its speed in [0.01, 0.04), and its colour comes from the palette |
| StarMotion.Multiplier | src/components/ui/star-field.tsx:81 | the depth multiplier is 1 when the time step is 0, as on the first frame: there `deltaTime * 0.05` is 0 and JavaScript's logical or picks 1. Otherwise it is `deltaTime * 0.05`. It is positive for a non-negative time step |
| StarMotion.AdvanceTwinkle | src/components/ui/star-field.tsx:84-85 | the phase after a frame is at most 1; it is either the phase plus the speed or exactly 0, and it is non-negative when that sum is |
| StarMotion.StepStar | src/components/ui/star-field.tsx:79-95 | a frame keeps a star's size, colour and speed, and sets its phase to `AdvanceTwinkle` of the old phase and speed |
| StarMotion.StepKeepsInField | src/components/ui/star-field.tsx:79-95 | when depth does not grow, a frame keeps a star of the field in the field, strictly in front of the viewer and at most at the far plane |
| StarMotion.StepAllKeepsInField | src/components/ui/star-field.tsx:79-95 | a frame keeps every star of the field in the field |
| StarMotion.FlyApproaches | src/components/ui/star-field.tsx:81 | while a star stays in front of the viewer, n frames bring it exactly n times `dz` closer and keep its screen position |
| StarMotion.FlyArrives | src/components/ui/star-field.tsx:91-95 | a star with (n-1)·dz < z ≤ n·dz reaches the viewer on frame n. It is then at the far plane (z = width), at the position that frame's draw gives |
| StarMotion.FlyTwinkleClimbs | src/components/ui/star-field.tsx:84 | while the phase stays at most 1, n frames add exactly n times the speed |
| StarMotion.FlyTwinkleRestarts | src/components/ui/star-field.tsx:85 | on the frame where the phase would pass 1 it becomes exactly 0, not the overshoot |
| StarMotion.RadiusBounds | src/components/ui/star-field.tsx:100 | for `Radius`, a star between the viewer and the far plane has a radius in [0, size·tf]. The radius is 0 at the far plane, and below size·tf whenever z > 0 |
| StarMotion.RadiusGrowsAsStarApproaches | src/components/ui/star-field.tsx:100 | for a positive size and twinkle factor, one depth gives a larger radius than another exactly when it is nearer |
| StarMotion.GlowRadius | src/components/ui/star-field.tsx:109 | for a non-negative radius and glow intensity, the glow radius lies between 0.7 and 1.3 times radius × glowIntensity |
| StarMotion.GlowBetween | src/components/ui/star-field.tsx:109 | `radius * glowIntensity * (tf + 0.3)` lies between 0.7 and 1.3 times radius × glowIntensity for tf in [0.4, 1] |
| StarMotion.RadiusFacts | src/components/ui/star-field.tsx:136 | a field star's radius lies in [0, 2.5), and a radius above 1.2 needs a size above 1.2 |
| StarMotion.SpriteSizes | src/components/ui/star-field.tsx:100-137 | for a star of the field, the radius of the sprite `SpriteOf` draws lies in [0, 2.5) and its glow reaches 0.7 to 1.3 times radius × glowIntensity. Only a star larger than 1.2 can flare |
| StarMotion.SpriteFlareSizes | src/components/ui/star-field.tsx:135-167 | a flare `SpriteOf` draws for a star of the field is 4.8 to 25 long and 0.6 to 1.25 wide |
| StarMotion.SpriteColours | src/components/ui/star-field.tsx:113-163 | a field star's colour always parses. The glow of its `SpriteOf` sprite fades from its hue at 0.4·tf and its flare from its hue at 0.3 |
| StarFieldCanvas.StarField.constructor | src/components/ui/star-field.tsx:174 | on mount the stars start empty and the last frame time is 0. The first resize then takes the window size and seeds the stars, all in the field |
| StarFieldCanvas.StarField.ResizeCanvas | src/components/ui/star-field.tsx:29-33 | the canvas takes the window's size, and the star list is replaced by a fresh seeding in the field of the new canvas |
| StarFieldCanvas.StarField.InitStars | src/components/ui/star-field.tsx:35-60 | the old stars are discarded and the list becomes exactly `SeedCount(starCount)` seeded stars, each in the field |
| StarFieldCanvas.StarField.Render | src/components/ui/star-field.tsx:65-169 | the last frame time becomes `time`. Every star moves by one `StepStar` with `dz = speed * Multiplier(time - lastTime)`, no star is added or removed, and the returned sprites are those of the moved stars, in order. With a non-negative speed and time step the field invariant is kept |
| StarFieldCanvas.StarField.MoveStar | src/components/ui/star-field.tsx:79-95 | the callback's in-order field updates (depth, twinkle, reset) produce exactly `StepStar` |

## Left out

- The canvas itself is not modelled: clearing it, the background gradient (lines 70-77), paths, fills and strokes. A frame returns `Sprite` values (position, radius, fill colour, glow radii, optional flare) in their place.
- The gradients a sprite is painted with are not stored in the sprite. `StarMotion.GlowOf` and `StarMotion.FlareGradientOf` derive them from the sprite's colour and twinkle factor, as the drawing code does when it parses the colour.
- Numbers are not formatted into `rgba(...)` text for the stops. A stop is kept as its channels and an opacity.
- `Math.random`, `Math.sin`, `Math.cos` and `Math.PI` are not modelled. Random values are arguments in [0, 1). The twinkle factor `0.7 + 0.3·sin(2π·twinkle)` is an argument in [0.4, 1], so the model does not tie it to the star's phase. The flare's angle is dropped.
- JavaScript numbers are exact reals here, so double rounding is not modelled. Neither is a NaN time step, which `|| 1` would also turn into 1, nor `parseInt` of a channel too large for a double.
- The React lifecycle is not modelled: the props with their defaults (200, 0.05, 2.5), the resize listener, `requestAnimationFrame`, cleanup on unmount and the `canvas` element. The prop values are constructor arguments, a resize is a call to `ResizeCanvas`, and a frame is a call to `Render`.
- StarFieldCanvas.StarField.ResizeCanvas: requires a window of positive width and height. With a zero width the source divides by zero when computing the radius. With a zero height no position y satisfies 0 ≤ y < height, so the field invariant cannot hold; the source itself never divides by the height.
- StarFieldCanvas.StarField.constructor: on mount the source also draws a first frame, `render()` with its default time 0 (lines 65 and 176). The constructor stops after the first resize. Mounting is the constructor followed by `Render(0.0, draws)`, whose time step of 0 gives a depth multiplier of 1.
- StarFieldCanvas.StarField.Render: the star objects are values, so the model does not cover another reference to a star observing the update in place. The per-star random draws come in the order of the stars, not interleaved as `Math.random()` calls are.
- A source comment calls the twinkle factor "0.7 to 1.3". The code computes `0.7 + 0.3·sin`, which lies in [0.4, 1], and the model follows the code. The glow's factor `1 + 0.3·sin` is the one in [0.7, 1.3].
- `src/components/sections/timeline.tsx` and `src/pages/Index.tsx` are not part of this model. They only place the component on the page.
