# CEODAVE site script: verified model of its stateful pieces

The site's `script.js` is mostly DOM, canvas and timer glue. This project
models the parts of it that keep state and follow definite rules, and proves
what they guarantee:

- **TypeWriter** (module `Typing`): the tagline typing effect. It types the
  current string one character per tick, holds it for `wait` ms, deletes it one
  character per tick, then starts the next string, wrapping around at the end
  of the list. The class holds `textIndex`, `charIndex`, `isDeleting`, the
  element's text and the delay of the pending timer. `Step` is one call of
  `type()` as a function. `Run` and `Elapsed` follow it over many ticks, and the
  lemmas prove the phase lengths, the delays and the full cycle over one string.
  JavaScript's `substring` clamping is modelled exactly.
- **MatrixRain** (module `Rain`): the falling-glyph background's column array.
  `Resize` rebuilds it as `floor(width / 14)` ones. `Draw` moves every column
  down a row in place, or restarts it at row 1. A restart needs the glyph to be
  below the canvas and that column's random decision to be true.
- **ParticleSystem** (module `Particles`): how many particles a canvas gets
  (`floor(width * height / 15000)`), how each is created from its random draws
  (palette colour, position inside the canvas), and the per-frame position
  update, whose wrap-around keeps every particle inside `[0, width] x [0, height]`.
- **Navigation** (module `Nav`): the scroll handler. The navbar is `scrolled`
  iff `scrollY > 100`. The current section is the last one in document order
  with `scrollY >= offsetTop - 150`, or none. Exactly the links whose href is
  `#` followed by the current id are `active`.

Randomness enters as parameters. `Math.random()` values are reals in `[0, 1)`,
and the rain's reset decisions are booleans, one per column. The DOM reads
(`window.innerWidth`, `scrollY`, `offsetTop`, `getAttribute`) are parameters
too. Timers and the animation-frame loop are not modelled. Each modelled method
is one invocation of the corresponding handler or callback.

JavaScript numbers are modelled as exact reals for particle coordinates and
scroll position, and as integers for canvas sizes, column rows and indices.
Canvas sizes come from `window.innerWidth`/`innerHeight`, which are
non-negative integers.

Three behaviours of the code are easy to misread:
- Particle coordinates wrap into the closed range `[0, width]`. A coordinate
  equal to `width` is left unchanged, so `x < width` does not hold in general.
- A rain column that restarts is set to 0 and then incremented in the same
  frame, so it ends the frame at row 1, not row 0.
- The startup block never creates a TypeWriter, but the class is complete
  code, so it is modelled.

## Model

| member | source | states |
|---|---|---|
| `Typing.Substring` | script.js:583-586 | JavaScript `substring(0, k)` is the prefix of length `k` clamped into `[0, length]`; with in-range bounds it is the exact slice, and its length is the distance between the clamped bounds |
| `Typing.Clamp` | script.js:583-586 | a `substring` bound is moved into `[0, length]`: negative bounds become 0, bounds past the end become the length, in-range bounds are kept |
| `Typing.Step` | script.js:579-600 | one `type()` call: the string index stays in range and only advances cyclically; one character is typed or deleted; the element shows the prefix of the current string whose length is the new `charIndex`; the reachable-state invariant is kept when no string is empty; typing becomes deleting exactly when the string is complete, with delay `wait`; deleting becomes typing of the next string exactly when nothing is left, with delay 500; every other tick keeps mode and string with delay 100 (typing) or 50 (deleting) |
| `Typing.Run` | script.js:572-597 | after any number of ticks `textIndex` is within `[0, texts.length)`, and from a consistent cursor the cursor stays consistent (`0 <= charIndex <= length` with the mode's bounds) |
| `Typing.RunSplit` | script.js:601 | consecutive ticks compose: `a + b` ticks are `a` ticks then `b`, and their delays add up |
| `Typing.Elapsed` | script.js:590-601 | the total of the `setTimeout` delays over `n` ticks is non-negative for a non-negative hold, and at least `50 * n` ms when the hold is at least 50 ms |
| `Typing.TypingPhase` | script.js:586-594 | from a typing cursor the rest of the string takes one tick per missing character, with `n - 1` delays of 100 and then `wait`, and ends deleting with the whole string shown |
| `Typing.DeletingPhase` | script.js:583-599 | from a deleting cursor at `charIndex` the string is erased in `charIndex` ticks, with `charIndex - 1` delays of 50 and then 500, ending at character 0 of the next string (cyclically) |
| `Typing.FullCycle` | script.js:579-601 | a string of length `n` takes `2n` ticks and `150 * (n - 1) + wait + 500` ms from its start to the start of the next string |
| `Typing.EmptyTextNeverFinishes` | script.js:586-592 | with an empty current string `charIndex` keeps growing and the typing mode is never left, so every string must be non-empty |
| `Typing.TypeWriter.constructor` | script.js:568-577 | starts at string 0, character 0, typing, with a default hold of 3000 ms, and performs the first tick at once |
| `Typing.TypeWriter.Type` | script.js:579-602 | the new fields, text and timer delay are `Step` of the old cursor, and the invariant (consistent cursor, element shows `texts[textIndex][..charIndex]`) is kept |
| `Rain.ColumnCount` | script.js:25 | the column count is `floor(width / 14)`: `n * 14 <= width < (n + 1) * 14` |
| `Rain.Fall` | script.js:46-49 | one column's frame: it moves down one row or ends at row 1; a non-negative row ends at least 1; a column still on the canvas always moves down; a column of row >= 1 restarts exactly when `row * 14 > height` and its random decision is true |
| `Rain.Fallen` | script.js:36-50 | the length is unchanged; every column is its old value + 1 or 1; non-negative columns end at least 1; a column of row >= 1 comes back to 1 or less exactly when `row * 14 > height` and its random decision is true; a column still on the canvas always moves down one row |
| `Rain.MatrixRain.constructor` | script.js:11-20 | sizes the canvas to the window and fills all `floor(width / 14)` columns with 1 |
| `Rain.MatrixRain.Resize` | script.js:22-27 | canvas takes the window's size; a fresh array of `floor(width / 14)` ones replaces the columns |
| `Rain.MatrixRain.Draw` | script.js:29-51 | updates the column array in place to `Fallen` of its old contents, keeping its length and every column >= 1 |
| `Particles.ParticleCount` | script.js:82 | the particle count is `floor(width * height / 15000)`: `n * 15000 <= width * height < (n + 1) * 15000` |
| `Particles.Scale` | script.js:87-88 | `Math.random() * bound` lies in `[0, bound]`, and below `bound` when `bound > 0` |
| `Particles.PaletteIndex` | script.js:92 | `floor(Math.random() * 4)` is a valid index into the 4-entry palette |
| `Particles.PaletteColor` | script.js:69-92 | the chosen colour is one of the palette's four colours |
| `Particles.Spawn` | script.js:86-94 | a new particle has a palette colour, lies inside the canvas (strictly below a positive width/height), has size in `[1, 4)`, opacity in `[0.2, 0.7)` and speeds in `[-0.25, 0.25)` |
| `Particles.Wrap` | script.js:140-143 | for a non-negative bound, after the two comparisons the coordinate is in `[0, bound]`; a coordinate already in range is unchanged; one below 0 goes to `bound`, one beyond `bound` goes to 0 |
| `Particles.Advance` | script.js:130-143 | after the repulsion push, the velocity step and the wrap, the particle is inside the canvas; only its position changes; a position that lands in range is kept |
| `Particles.ParticleSystem.constructor` | script.js:64-74 | sizes the canvas and creates `floor(w * h / 15000)` palette-coloured particles inside it |
| `Particles.ParticleSystem.Resize` | script.js:76-79 | the canvas takes the window's size and the particles are untouched |
| `Particles.ParticleSystem.Init` | script.js:81-96 | the old list is discarded and exactly `floor(width * height / 15000)` particles are created, particle `i` from the `i`-th random draws, each inside the canvas with a palette colour |
| `Particles.ParticleSystem.OnResize` | script.js:99-102 | after a window resize the canvas has the new size and the particle list is regenerated with the new count |
| `Particles.ParticleSystem.Draw` | script.js:115-143 | every particle is replaced in place by its `Advance`; the count is unchanged and all particles stay inside the canvas |
| `Nav.Reached` | script.js:226-227 | a section is reached iff its `offsetTop` is at most `scrollY + 150` |
| `Nav.LastReached` | script.js:224-230 | the result is -1 or the index of a reached section (`scrollY >= offsetTop - 150`), and no later section is reached; so it is the last reached section, and -1 exactly when none is reached |
| `Nav.CurrentId` | script.js:224-230 | the value of `current` after the `forEach`: `''` when no section is reached, and otherwise a non-empty value is the id of some reached section |
| `Nav.LastReachedMonotone` | script.js:225-229 | scrolling further down never moves the current section to an earlier one |
| `Nav.CurrentSection` | script.js:224-230 | the `forEach` leaves in `current` the id of the last reached section, or `''` when none is reached |
| `Nav.Highlights` | script.js:234 | a link is highlighted iff it has an href, the href starts with `#`, and the rest of it is exactly the current id |
| `Nav.Navigation.constructor` | script.js:185-193 | binds to the navbar and links without changing their classes |
| `Nav.Navigation.HandleScroll` | script.js:215-238 | when the navbar exists it is `scrolled` iff `scrollY > 100`, otherwise nothing changes for it; a link is `active` iff its href equals `#` followed by the current id, and every other link is inactive |

## Left out

- Canvas drawing (`fillRect`, `fillText`, `arc`, `stroke`, `globalAlpha`, font and colour settings) and the `requestAnimationFrame` self-rescheduling loops: graphics side effects and frame scheduling.
- The `setTimeout` rescheduling of `type()`: the model records the delay it is given in `pendingDelay`, and `Run`/`Elapsed` model the resulting sequence of ticks.
- Pointer repulsion (`sqrt`, `atan2`, `cos`, `sin`) and the pairwise line pass: floating-point geometry. The repulsion enters `ParticleSystem.Draw` as a per-particle displacement (`Push`), zero when the pointer is absent or out of range. The pointer tracking listeners are not modelled.
- Floating-point rounding: positions, speeds and scroll offsets are exact reals. The wrap-around bound still holds with rounding, since it only compares and assigns.
- The probabilities: the rain's `Math.random() > 0.975` is any boolean, and `Math.random()` is any real in `[0, 1)`. The random glyph and opacity of each rain frame only affect drawing.
- Particle size, speed and opacity are modelled only as the formulas that create them. Their drawing use is left out.
- `CounterAnimation` and `checkFPS`: floating-point step accumulation and wall-clock timing.
- `BookingForm` submission and notifications: FormData, URL encoding and page navigation.
- `ScrollReveal`, `AudioVisualizer`, `CursorGlow`, `GlitchEffect`, `VinylController`, `GenreCards`, the mobile menu, smooth scrolling and the preloader: DOM and style writes driven by observers and timers, with no rule beyond them.
- `Typing.TypeWriter.constructor` requires a non-empty list of non-empty strings. With an empty list the code reads `undefined.substring` and throws. With an empty string it never stops typing, as `EmptyTextNeverFinishes` shows.
- Typing.Substring: `string` here stands for the sequence of UTF-16 code units that JavaScript's `length` and `substring` count, not Unicode scalar values. A character outside the Basic Multilingual Plane is two code units, takes two ticks and shows a lone surrogate in between. The `n` of `Typing.FullCycle` and `Typing.TypingPhase` is that code-unit length. No conversion from text to code units is modelled.
- Column rows past 2^53 lose integer precision in JavaScript. Rows are unbounded integers here.
