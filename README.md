# Fireworks and snow canvases, modelled in Dafny

A model of the two canvas effects of the Christmas greeting page.

## Fireworks

The fireworks spell out the phrases `MERRY`, `CHRISTMAS` and `I LOVE YOU` in turn, each for 6300 ms. `I LOVE YOU` is shown on two lines: line 0 holds `YOU` and line 1 holds `I LOVE`, drawn higher on the canvas than line 0.

- **Glyphs.** Each non-space character of the showing phrase becomes one firework. Its particles are found by rejection sampling: random points of a square bitmap of the character are drawn until enough of them land on an opaque pixel.
- **Stagger.** On a single-line phrase, the characters ignite 200 ms apart. On a multi-line phrase they all ignite together.
- **Phases.** A firework is a rising rocket for the first 15% of its window and an explosion after that.
- **Position.** The firework sits at its slot along its line, and its line sits at a fixed height on the canvas.
- **Start delay.** Nothing is drawn for the first 3000 ms, while the tree appears.

The files are:

- `fireworks_glyph.dfy`: the glyph size and particle count, and the sampling loop of `makeChar`. The loop is proved against the recursive specification `Sample`.
- `fireworks_text.dfy`: the phrase table, and how a phrase is laid out as one slot per non-space character, each slot tagged with its line.
- `fireworks_choreography.dfy`: `firework` for one character at one moment. It covers the phrase index, the cycle clock, the stagger window, the horizontal slot, the line height and the rocket/explosion split.
- `fireworks.dfy`: the effect's state as the class `FireworksCanvas`, which holds the canvas size, the particle count, the memoised phrase index and its records. Its operations are `resize`, `makeChars` (memoised on the phrase index) and `render`.

## Snow

The snow is a pool of 50 flakes. Each frame, every flake falls by its speed and sways sideways by a sine of its height. A flake that passes the bottom edge comes back at height -10 at a fresh random `x`. A flake that leaves the canvas on one side re-enters on the other.

`snow.dfy` holds `createFlake` as a function and the pool as the class `SnowCanvas`:
- its constructor is `init`;
- `HandleResize` is the resize handler;
- `Update` is `update`.

## How the environment is modelled

- **Randomness.** `Math.random()` is a finite stream of values in [0, 1), passed in by the caller.
  - The fireworks draw pairs (`Draw`) from a stream the canvas holds.
  - `createFlake` takes six values.
  - A respawning flake takes one value.
- **Sine.** `Math.sin` is a parameter `sin` with values in [-1, 1].
- **Rasterizer.** What `fillText` followed by `getImageData` leave in the bitmap is a parameter `glyph: (char, nat) -> seq<int>`, the RGBA bytes of the character drawn at the given size.
- **Numbers.** Numbers are mathematical reals. `parseInt(t / duration)` is the floor of the quotient, since `t` is never negative.

## Model

| member | source | states |
|---|---|---|
| FireworksGlyph.GlyphSize | src/components/Fireworks.jsx:25 | the glyph square is 200 pixels wide below a 400-pixel canvas and 300 otherwise, exactly when the particle count is 55 |
| FireworksGlyph.ParticleCount | src/components/Fireworks.jsx:47 | 55 particles per glyph on narrow canvases, 99 otherwise |
| FireworksGlyph.Sample | src/components/Fireworks.jsx:34-40 | the sampler keeps at most `need` particles and consumes no more draws than it has; if it returns fewer than `need`, it used up every draw |
| FireworksGlyph.CentredInBox | src/components/Fireworks.jsx:35-39 | an accepted draw becomes a point inside the centred square, on an opaque pixel of the glyph |
| FireworksGlyph.SampleOnGlyph | src/components/Fireworks.jsx:34-40 | every particle the sampler keeps lies inside the square and on the character |
| FireworksGlyph.SampleIsFull | src/components/Fireworks.jsx:34 | with at least `need` hits among the draws, the loop ends with exactly `need` particles |
| FireworksGlyph.PixelOffsetInRaster | src/components/Fireworks.jsx:37 | the byte offset of any point of the square is the red channel of a pixel inside the size*size RGBA bitmap |
| FireworksGlyph.MakeChar | src/components/Fireworks.jsx:23-41 | the imperative sampling loop returns the particles and draw count of the specification `Sample` |
| FireworksText.NoSpaces | src/components/Fireworks.jsx:70 | filtering out spaces leaves no space, never lengthens the string, and leaves a space-free string unchanged |
| FireworksText.NoSpacesAppend | src/components/Fireworks.jsx:61-62 | filtering spaces out of two strings written one after the other gives the two filtered strings, in order |
| FireworksText.SingleLineLayout | src/components/Fireworks.jsx:68-71 | a phrase not in the multi-line table becomes one slot per non-space character, in order, each on line 0 of 1 |
| FireworksText.LinesGlyphs | src/components/Fireworks.jsx:58-67 | a multi-line phrase's slots hold the characters of its lines, line after line, with the spaces dropped |
| FireworksText.LinesTags | src/components/Fireworks.jsx:61-66 | every slot of a multi-line phrase carries the number of lines and a valid line index, and the line indices never decrease |
| FireworksText.LinesCountOnLine | src/components/Fireworks.jsx:61-66 | line `l` of a multi-line phrase holds exactly one slot per non-space character of that line |
| FireworksText.IndexOnLineBelowCount | src/components/Fireworks.jsx:111-113 | a character's index within its line is below the number of characters on that line |
| FireworksText.GreetingsMultiline | src/components/Fireworks.jsx:16-19 | of the three phrases, only the third (`I LOVE YOU`) is shown on several lines |
| FireworksText.MerryLayout | src/components/Fireworks.jsx:68-71 | `MERRY` becomes the five slots M, E, R, R, Y on line 0 of 1 |
| FireworksText.ILoveYouLayout | src/components/Fireworks.jsx:58-67 | `I LOVE YOU` becomes Y, O, U on line 0, then I, L, O, V, E on line 1, all of 2 lines |
| FireworksChoreography.PhraseIndex | src/components/Fireworks.jsx:51 | the phrase index is always a valid index into the phrase table |
| FireworksChoreography.CycleTime | src/components/Fireworks.jsx:96 | the time within the current window lies in [0, 6300) |
| FireworksChoreography.PhraseInWindow | src/components/Fireworks.jsx:94-96 | inside the n-th 6300 ms window, the phrase is number n modulo the number of phrases, and the cycle clock counts from the window's start |
| FireworksChoreography.PhrasePeriodic | src/components/Fireworks.jsx:94-96 | phrase index and cycle clock repeat with period 6300 ms times the number of phrases |
| FireworksChoreography.GreetingsStagger | src/components/Fireworks.jsx:94-99 | with the initial phrases, the index is floor(t / 6300) mod 3, and the stagger is 200 ms per character except for phrase 2, which has none |
| FireworksChoreography.Firework | src/components/Fireworks.jsx:92-133 | a character is drawn exactly when its stagger delay has passed in the current window; rocket progress lies in [0, 1); explosion progress lies in [0, 1] and names the character; on a positive-width canvas the firework lies strictly inside it; it sits at its line's height |
| FireworksChoreography.StaggeredIgnition | src/components/Fireworks.jsx:99-105 | in a single-line phrase, character `i` is dark exactly while less than 200*i ms of the window have passed |
| FireworksChoreography.MultilineIgnitesTogether | src/components/Fireworks.jsx:99-105 | in a multi-line phrase, every character is drawn throughout the window |
| FireworksChoreography.PhaseSplit | src/components/Fireworks.jsx:108-133 | the rocket is drawn exactly while normalized time is below 0.15, with progress normalized/0.15; the explosion progress is (normalized - 0.15)/0.85, which the clamp never changes |
| FireworksChoreography.SlotInside | src/components/Fireworks.jsx:114 | slot k of n lies strictly between the canvas edges |
| FireworksChoreography.SlotsIncrease | src/components/Fireworks.jsx:114 | a larger in-line index gives a slot strictly further right |
| FireworksText.EarlierOnLineFirst | src/components/Fireworks.jsx:111-113 | of two characters on the same line, the earlier one has the smaller in-line index |
| FireworksChoreography.LaterCharactersFurtherRight | src/components/Fireworks.jsx:111-114 | of two lit characters on the same line, the later one is drawn strictly further right |
| FireworksChoreography.LineOffsetsCancel | src/components/Fireworks.jsx:120-125 | the vertical offsets of all lines of a phrase sum to zero: the lines are centred on the anchor height |
| FireworksChoreography.LineOffsetsSymmetric | src/components/Fireworks.jsx:122-125 | lines equally far above and below the middle get opposite offsets |
| Fireworks.BuildChars | src/components/Fireworks.jsx:56-71 | one record per slot, built with no more draws than there are |
| Fireworks.BuildCharsMatches | src/components/Fireworks.jsx:61-70 | each record carries the line index and line count of its slot |
| Fireworks.BuildCharsSampled | src/components/Fireworks.jsx:62-70 | each record has at most `particles` particles, all inside the glyph square and on its own character |
| Fireworks.BuildCharsFull | src/components/Fireworks.jsx:62-70 | unless the draws ran out, every record has exactly `particles` particles |
| Fireworks.PhraseCharsFollowLayout | src/components/Fireworks.jsx:50-72 | a phrase's records follow its layout: count, line tags, particles on their glyph, full unless the draws ran out |
| Fireworks.MakeCharsOf | src/components/Fireworks.jsx:58-71 | the loop of `makeChar` calls builds exactly the records of `BuildChars`, each call taking the draws the previous one left |
| Fireworks.Fireworks | src/components/Fireworks.jsx:87-89 | the `forEach` over the records yields `firework` of each record, in order |
| Fireworks.FireworksCanvas.constructor | src/components/Fireworks.jsx:44-48 | the effect starts with the canvas size, the matching particle count, no phrase built and the three-phrase table |
| Fireworks.FireworksCanvas.Resize | src/components/Fireworks.jsx:44-48 | takes the new size and resets the particle count to 55 or 99; the state stays valid |
| Fireworks.FireworksCanvas.MakeChars | src/components/Fireworks.jsx:50-72 | afterwards the showing phrase is memoised and built; if it was already built, nothing changes; otherwise its records are those of its layout, and the draws they consumed are gone |
| Fireworks.FireworksCanvas.Render | src/components/Fireworks.jsx:74-90 | before 3000 ms nothing is drawn and nothing changes; after, the phrase at the delayed time is memoised: if it was already built the records and draws are unchanged, otherwise its records are rebuilt from the old draws and the used draws are gone; every record is drawn with `firework` at the delayed time |
| Fireworks.ShotsAt | src/components/Fireworks.jsx:88 | the frame's shot for record `i` is `firework` of record `i` |
| Snow.CreateFlake | src/components/Snow.jsx:21-30 | a fresh flake has radius in [1, 3), speed and opacity in [0.3, 0.8), sway in [0.05, 0.2), and lies on the canvas |
| Snow.Step | src/components/Snow.jsx:40-61 | a tick keeps the flake's attributes; a flake past the bottom comes back at -10 at a fresh x; otherwise it falls by its speed and its swayed x wraps to 0 past the right edge and to the width past the left; the sway moves it by at most its sway |
| Snow.StepKeepsOnCanvas | src/components/Snow.jsx:40-61 | a flake on the canvas with valid attributes stays so after a tick |
| Snow.StepAll | src/components/Snow.jsx:39-62 | a tick of the pool keeps its size and uses no more random values than it has |
| Snow.StepAllEach | src/components/Snow.jsx:40-41 | each flake of the ticked pool is that flake's own tick |
| Snow.StepAllKeepsPool | src/components/Snow.jsx:39-62 | the pool invariant (50 flakes, valid attributes, on the canvas) survives a tick |
| Snow.Created | src/components/Snow.jsx:34-36 | `createFlake` once per list of random values, as many flakes as lists |
| Snow.SnowCanvas.constructor | src/components/Snow.jsx:32-37 | `init`: the canvas size is taken and the pool holds 50 fresh flakes |
| Snow.SnowCanvas.PushFlakes | src/components/Snow.jsx:34-36 | the push loop appends the created flakes, in order, to the pool |
| Snow.SnowCanvas.HandleResize | src/components/Snow.jsx:87-94 | the new size is taken and the pool is replaced by 50 fresh flakes |
| Snow.SnowCanvas.Update | src/components/Snow.jsx:39-62 | the pool becomes the tick of every flake in order, with respawns taking random values in turn, and the pool invariant is kept |

## Left out

- **Drawing.**
  - Nothing that is drawn is modelled: the fading `fillRect` of `render`, `rocket` and `explosion`, and the snow's `draw`.
  - `Firework` returns what would be drawn (the position, id and progress) instead.
- FireworksChoreography.Firework: the sine jitter of the position (`Math.sin(id)` and `Math.sin(id * 4547.411)`) is not added. The contract therefore states the un-jittered slot and line height.
- **Frame loop.** `requestAnimationFrame`, the event listeners and their removal, and the React components (`App`, `Home`) are frame-loop and page plumbing. `server.js` and the Tailwind configuration are not part of this model.
- **Canvas creation and fonts.**
  - Creating the offscreen canvas, the font and `fillText` are replaced by the `glyph` parameter.
  - The model does not capture which pixels Arial actually covers.
- FireworksGlyph.MakeChar: the random values are a finite stream.
  - If the stream runs out, the loop stops with fewer particles.
  - The source loops until it has enough, and never ends for a glyph without an opaque pixel.
- Snow.SnowCanvas.Update: `rand` must hold at least one value per flake.
  - This stands in for the endless supply of `Math.random()`.
- **Floating point.** Numbers are reals, so rounding of JavaScript doubles is not modelled.
- FireworksGlyph.Hit: `parseInt` at line 37 of `Fireworks.jsx` reads the decimal string of the coordinate. For a coordinate below 1e-6 (a draw below about 5e-9), written in exponent notation, it returns the leading digit rather than 0, so the source may test another pixel and keep a particle on a transparent one. The model takes the floor, so `SampleOnGlyph` and `CentredInBox` do not cover that case.
- FireworksChoreography.PhraseIndex: JavaScript's `parseInt` reads the decimal string of its argument. For quotients below 1e-6, written in exponent notation, it does not return the floor. The model uses the floor, which is what the source evidently relies on.
- Snow.SnowCanvas.Update: flakes are immutable records, and `Update` replaces the pool by the ticked records. The in-place mutation of the flake objects and any aliasing of them are not modelled.
- Fireworks.FireworksCanvas.Resize: as in the source, resizing does not rebuild the records, which keep the particles sampled at the old glyph size.
- Fireworks.FireworksCanvas.constructor: the phrase table (`str`, `multilineStrings`) is a constant fixed when the effect starts. Its members are generic over the table, and `GreetingsMultiline` and `GreetingsStagger` state what the initial table implies.
- Fireworks.FireworksCanvas.Render: the `chars.length > 0` guard is not modelled separately, because drawing no records yields no shots either way.
